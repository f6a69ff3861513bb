/**
 * The operation registry: the static `resources` table of the node and the two
 * static lookups `getEndpointForOperation` and `getOperationDetails`, together
 * with the `Array.find` lookup that `execute` performs on the same table.
 *
 * The table itself lives in a file that is not part of this model, so every
 * member takes it as a parameter.
 */
module Registry {
  import opened Wrappers

  /** One API action: its id within the resource, HTTP method, endpoint template
      and the names of its operation-specific parameters (empty when it has none). */
  datatype Operation = Operation(value: string, httpMethod: string, endpoint: string, fields: seq<string>)

  /** A named group of operations. */
  datatype Resource = Resource(value: string, operations: seq<Operation>)

  type Table = seq<Resource>

  /** `operationDetails.fields && operationDetails.fields.length > 0` */
  predicate HasFields(op: Operation) {
    |op.fields| > 0
  }

  /** Operation `j` of resource `i` is the pair (r, o). */
  predicate Occurs(table: Table, r: string, o: string, i: int, j: int) {
    && 0 <= i < |table|
    && table[i].value == r
    && 0 <= j < |table[i].operations|
    && table[i].operations[j].value == o
  }

  /** (i, j) is the first occurrence of (r, o) in table order: no earlier resource
      holds the pair, and no earlier operation of resource i does. */
  ghost predicate IsFirst(table: Table, r: string, o: string, i: int, j: int) {
    && Occurs(table, r, o, i, j)
    && (forall i', j' :: 0 <= i' < i && Occurs(table, r, o, i', j') ==> false)
    && (forall j' :: 0 <= j' < j ==> !Occurs(table, r, o, i, j'))
  }

  /** `operations.find((o) => o.value === operation)`, searching from index `j`. */
  function FindOpFrom(ops: seq<Operation>, o: string, j: nat): (res: Option<Operation>)
    requires j <= |ops|
    decreases |ops| - j
  {
    if j == |ops| then None
    else if ops[j].value == o then Some(ops[j])
    else FindOpFrom(ops, o, j + 1)
  }

  /** `operations.find((o) => o.value === operation)`: nothing exactly when no
      operation has the value, and otherwise the first one that has it. */
  function FindOp(ops: seq<Operation>, o: string): (res: Option<Operation>)
    ensures res.None? <==> forall j :: 0 <= j < |ops| ==> ops[j].value != o
    ensures res.Some? ==>
      exists k :: 0 <= k < |ops| && ops[k].value == o && res.value == ops[k]
        && forall j :: 0 <= j < k ==> ops[j].value != o
  {
    FindOpFromFirst(ops, o, 0);
    FindOpFrom(ops, o, 0)
  }

  /** `resources.find((r) => r.value === resource)`, searching from index `i`. */
  function FirstResourceFrom(table: Table, r: string, i: nat): Option<Resource>
    requires i <= |table|
    decreases |table| - i
  {
    if i == |table| then None
    else if table[i].value == r then Some(table[i])
    else FirstResourceFrom(table, r, i + 1)
  }

  /** `resources.find((r) => r.value === resource)`: nothing exactly when no
      resource has the value, and otherwise the first one that has it. */
  function FirstResource(table: Table, r: string): (res: Option<Resource>)
    ensures res.None? <==> forall i :: 0 <= i < |table| ==> table[i].value != r
    ensures res.Some? ==>
      exists k :: 0 <= k < |table| && table[k].value == r && res.value == table[k]
        && forall i :: 0 <= i < k ==> table[i].value != r
  {
    FirstResourceFromFirst(table, r, 0);
    FirstResourceFrom(table, r, 0)
  }

  lemma {:induction false} FirstResourceFromFirst(table: Table, r: string, i: nat)
    requires i <= |table|
    ensures FirstResourceFrom(table, r, i).None? <==> forall i' :: i <= i' < |table| ==> table[i'].value != r
    ensures FirstResourceFrom(table, r, i).Some? ==>
      exists k :: i <= k < |table| && table[k].value == r && FirstResourceFrom(table, r, i).value == table[k]
        && forall i' :: i <= i' < k ==> table[i'].value != r
    decreases |table| - i
  {
    if i < |table| && table[i].value != r {
      FirstResourceFromFirst(table, r, i + 1);
    }
  }

  /** The pure specification of the two static lookups: the first operation, in
      table order, of any resource named `r` whose id is `o`. */
  function LookupFrom(table: Table, r: string, o: string, i: nat): Option<Operation>
    requires i <= |table|
    decreases |table| - i
  {
    if i == |table| then None
    else if table[i].value == r && FindOp(table[i].operations, o).Some? then FindOp(table[i].operations, o)
    else LookupFrom(table, r, o, i + 1)
  }

  function Lookup(table: Table, r: string, o: string): Option<Operation> {
    LookupFrom(table, r, o, 0)
  }

  /** Resource ids are unique in the table. */
  ghost predicate UniqueResourceIds(table: Table) {
    forall i, i' :: 0 <= i < i' < |table| ==> table[i].value != table[i'].value
  }

  lemma {:induction false} FindOpFromFirst(ops: seq<Operation>, o: string, j: nat)
    requires j <= |ops|
    ensures FindOpFrom(ops, o, j).None? <==> forall j' :: j <= j' < |ops| ==> ops[j'].value != o
    ensures FindOpFrom(ops, o, j).Some? ==>
      exists k :: j <= k < |ops| && ops[k].value == o && FindOpFrom(ops, o, j).value == ops[k]
        && forall j' :: j <= j' < k ==> ops[j'].value != o
    decreases |ops| - j
  {
    if j < |ops| && ops[j].value != o {
      FindOpFromFirst(ops, o, j + 1);
    }
  }

  /** The lookup returns nothing exactly when no resource named `r` holds an
      operation `o`; otherwise it returns the first such operation in table order. */
  lemma {:induction false} LookupFromFirst(table: Table, r: string, o: string, i: nat)
    requires i <= |table|
    requires forall i', j' :: 0 <= i' < i ==> !Occurs(table, r, o, i', j')
    ensures LookupFrom(table, r, o, i).None? <==> forall i', j' :: !Occurs(table, r, o, i', j')
    ensures LookupFrom(table, r, o, i).Some? ==>
      exists i', j' :: IsFirst(table, r, o, i', j') && LookupFrom(table, r, o, i).value == table[i'].operations[j']
    decreases |table| - i
  {
    if i < |table| {
      FindOpFromFirst(table[i].operations, o, 0);
      if table[i].value == r && FindOp(table[i].operations, o).Some? {
        var k :| 0 <= k < |table[i].operations| && table[i].operations[k].value == o
          && FindOp(table[i].operations, o).value == table[i].operations[k]
          && forall j' :: 0 <= j' < k ==> table[i].operations[j'].value != o;
        assert IsFirst(table, r, o, i, k);
      } else {
        assert forall j' :: !Occurs(table, r, o, i, j');
        LookupFromFirst(table, r, o, i + 1);
      }
    }
  }

  lemma LookupFirst(table: Table, r: string, o: string)
    ensures Lookup(table, r, o).None? <==> forall i, j :: !Occurs(table, r, o, i, j)
    ensures Lookup(table, r, o).Some? ==>
      exists i, j :: IsFirst(table, r, o, i, j) && Lookup(table, r, o).value == table[i].operations[j]
  {
    LookupFromFirst(table, r, o, 0);
  }

  /** There is only one first occurrence. */
  lemma FirstIsUnique(table: Table, r: string, o: string, i: int, j: int, i2: int, j2: int)
    requires IsFirst(table, r, o, i, j) && IsFirst(table, r, o, i2, j2)
    ensures i == i2 && j == j2
  {
  }

  /** `getOperationDetails`: the nested scan with an early return. */
  method GetOperationDetails(table: Table, r: string, o: string) returns (res: Option<Operation>)
    ensures res.None? <==> forall i, j :: !Occurs(table, r, o, i, j)
    ensures res.Some? ==> exists i, j :: IsFirst(table, r, o, i, j) && res.value == table[i].operations[j]
    ensures res == Lookup(table, r, o)
  {
    LookupFirst(table, r, o);
    var i := 0;
    while i < |table|
      invariant 0 <= i <= |table|
      invariant forall i', j' :: 0 <= i' < i ==> !Occurs(table, r, o, i', j')
    {
      if table[i].value == r {
        var ops := table[i].operations;
        var j := 0;
        while j < |ops|
          invariant 0 <= j <= |ops|
          invariant forall j' :: 0 <= j' < j ==> !Occurs(table, r, o, i, j')
        {
          if ops[j].value == o {
            assert IsFirst(table, r, o, i, j);
            res := Some(ops[j]);
            ghost var i2, j2 :| IsFirst(table, r, o, i2, j2) && Lookup(table, r, o).value == table[i2].operations[j2];
            FirstIsUnique(table, r, o, i, j, i2, j2);
            return;
          }
          j := j + 1;
        }
      }
      i := i + 1;
    }
    res := None;
  }

  /** `getEndpointForOperation`: the same scan, returning the endpoint template. */
  method GetEndpointForOperation(table: Table, r: string, o: string) returns (res: Option<string>)
    ensures res.None? <==> Lookup(table, r, o).None?
    ensures res.Some? ==> res.value == Lookup(table, r, o).value.endpoint
  {
    LookupFirst(table, r, o);
    var i := 0;
    while i < |table|
      invariant 0 <= i <= |table|
      invariant forall i', j' :: 0 <= i' < i ==> !Occurs(table, r, o, i', j')
    {
      if table[i].value == r {
        var ops := table[i].operations;
        var j := 0;
        while j < |ops|
          invariant 0 <= j <= |ops|
          invariant forall j' :: 0 <= j' < j ==> !Occurs(table, r, o, i, j')
        {
          if ops[j].value == o {
            assert IsFirst(table, r, o, i, j);
            res := Some(ops[j].endpoint);
            ghost var i2, j2 :| IsFirst(table, r, o, i2, j2) && Lookup(table, r, o).value == table[i2].operations[j2];
            FirstIsUnique(table, r, o, i, j, i2, j2);
            return;
          }
          j := j + 1;
        }
      }
      i := i + 1;
    }
    res := None;
  }

  /** When `execute`'s two `find` calls succeed, they give the same operation as
      the static lookup; with unique resource ids they fail exactly when it does. */
  lemma {:induction false} FindAgreesWithLookup(table: Table, r: string, o: string)
    ensures FirstResource(table, r).Some? && FindOp(FirstResource(table, r).value.operations, o).Some? ==>
      Lookup(table, r, o) == FindOp(FirstResource(table, r).value.operations, o)
    ensures UniqueResourceIds(table) ==>
      (Lookup(table, r, o).None? <==>
        FirstResource(table, r).None? || FindOp(FirstResource(table, r).value.operations, o).None?)
  {
    FindAgreesFrom(table, r, o, 0);
  }

  lemma {:induction false} FindAgreesFrom(table: Table, r: string, o: string, i: nat)
    requires i <= |table|
    ensures FirstResourceFrom(table, r, i).Some? && FindOp(FirstResourceFrom(table, r, i).value.operations, o).Some? ==>
      LookupFrom(table, r, o, i) == FindOp(FirstResourceFrom(table, r, i).value.operations, o)
    ensures UniqueResourceIds(table) ==>
      (LookupFrom(table, r, o, i).None? <==>
        FirstResourceFrom(table, r, i).None? || FindOp(FirstResourceFrom(table, r, i).value.operations, o).None?)
    decreases |table| - i
  {
    if i < |table| {
      FindAgreesFrom(table, r, o, i + 1);
      if table[i].value == r && UniqueResourceIds(table) {
        NoLaterResource(table, r, o, i + 1, i);
      }
    }
  }

  /** With unique ids, no resource after index `k` is named like resource `k`. */
  lemma {:induction false} NoLaterResource(table: Table, r: string, o: string, i: nat, k: nat)
    requires UniqueResourceIds(table) && k < i <= |table| && table[k].value == r
    ensures LookupFrom(table, r, o, i).None?
    decreases |table| - i
  {
    if i < |table| {
      NoLaterResource(table, r, o, i + 1, k);
    }
  }
}
