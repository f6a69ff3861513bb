/**
 * The item loop of `execute`: each input item is turned into a request, the
 * request is handed to the transport, and the records it returns are appended
 * to the output in item order. A failure either becomes an `{ error: message }`
 * record (continue-on-fail) or ends the run.
 */
module Execution {
  import opened Wrappers
  import opened Registry
  import opened Request

  /** One output record: the index of the item it belongs to and its JSON. */
  datatype Record = Record(item: nat, json: Json)

  /** `helpers.request` followed by `returnJsonArray`: the JSON records returned
      for the request issued for item `k`, or the message of the failure. */
  type Transport = (nat, Request) -> Result<seq<Json>, string>

  /** Turns one item into the request to send for it, or the error that stops it. */
  type Builder = Item -> Result<Request, Error>

  /** What a run leaves behind: the requests issued, in order, and either the
      output records or the error that ended it. */
  datatype Outcome = Outcome(sent: seq<Request>, result: Result<seq<Record>, Error>)

  /** `{ error: error.message }` */
  function ErrorJson(e: Error): Json {
    JObj(map["error" := JStr(Message(e))])
  }

  function Records(k: nat, js: seq<Json>): (rs: seq<Record>)
  {
    seq(|js|, j requires 0 <= j < |js| => Record(k, js[j]))
  }

  function SentSeq(req: Option<Request>): seq<Request> {
    if req.Some? then [req.value] else []
  }

  /** One item: the request issued for it, if any, and its JSON records or the
      error that failed it. */
  function ProcessItem(build: Builder, item: Item, k: nat, transport: Transport): (Option<Request>, Result<seq<Json>, Error>) {
    match build(item)
    case Err(e) => (None, Err(e))
    case Ok(req) =>
      (Some(req),
       match transport(k, req)
       case Ok(js) => Ok(js)
       case Err(message) => Err(TransportFailure(message)))
  }

  /** The records item `k` contributes when it does not end the run. */
  function ItemRecords(build: Builder, item: Item, k: nat, transport: Transport): seq<Record> {
    match ProcessItem(build, item, k, transport).1
    case Ok(js) => Records(k, js)
    case Err(e) => [Record(k, ErrorJson(e))]
  }

  function Prepend(sent: seq<Request>, records: seq<Record>, rest: Outcome): Outcome {
    Outcome(
      sent + rest.sent,
      match rest.result
      case Ok(rs) => Ok(records + rs)
      case Err(e) => Err(e))
  }

  /** The run from item `k` on. With continue-on-fail it never ends in an
      error, and no item issues more than one request. */
  function RunFrom(build: Builder, items: seq<Item>, continueOnFail: bool, transport: Transport, k: nat): (out: Outcome)
    requires k <= |items|
    ensures continueOnFail ==> out.result.Ok?
    ensures |out.sent| <= |items| - k
    decreases |items| - k
  {
    if k == |items| then Outcome([], Ok([]))
    else
      var (req, res) := ProcessItem(build, items[k], k, transport);
      match res
      case Ok(js) =>
        Prepend(SentSeq(req), Records(k, js), RunFrom(build, items, continueOnFail, transport, k + 1))
      case Err(e) =>
        if continueOnFail then
          Prepend(SentSeq(req), [Record(k, ErrorJson(e))], RunFrom(build, items, continueOnFail, transport, k + 1))
        else
          Outcome(SentSeq(req), Err(e))
  }

  /** The request builder of this node: `BuildRequest` over the registry and the host. */
  function BuilderOf(table: Table, host: Host): Builder {
    item => BuildRequest(table, host, item)
  }

  /** The whole run over the input items: with continue-on-fail it never ends
      in an error; without, it ends in an error exactly when some item fails. */
  function Run(table: Table, host: Host, items: seq<Item>, continueOnFail: bool, transport: Transport): (out: Outcome)
    ensures continueOnFail ==> out.result.Ok?
    ensures !continueOnFail ==>
      (out.result.Err? <==> exists j :: 0 <= j < |items| && ProcessItem(BuilderOf(table, host), items[j], j, transport).1.Err?)
  {
    FirstFailureAborts(BuilderOf(table, host), items, transport, 0);
    RunFrom(BuilderOf(table, host), items, continueOnFail, transport, 0)
  }

  /** The records of `rs` that belong to item `j`, in order. */
  function RecordsFor(rs: seq<Record>, j: nat): seq<Record>
    decreases |rs|
  {
    if rs == [] then []
    else (if rs[0].item == j then [rs[0]] else []) + RecordsFor(rs[1..], j)
  }

  lemma {:induction false} RecordsForConcat(a: seq<Record>, b: seq<Record>, j: nat)
    ensures RecordsFor(a + b, j) == RecordsFor(a, j) + RecordsFor(b, j)
    decreases |a|
  {
    if a == [] {
      assert a + b == b;
    } else {
      var head := if a[0].item == j then [a[0]] else [];
      assert (a + b)[0] == a[0];
      assert (a + b)[1..] == a[1..] + b;
      assert RecordsFor(a + b, j) == head + RecordsFor(a[1..] + b, j);
      RecordsForConcat(a[1..], b, j);
      assert RecordsFor(a, j) == head + RecordsFor(a[1..], j);
      assert head + (RecordsFor(a[1..], j) + RecordsFor(b, j))
          == (head + RecordsFor(a[1..], j)) + RecordsFor(b, j);
    }
  }

  lemma {:induction false} RecordsForSelect(rs: seq<Record>, j: nat)
    ensures (forall x :: 0 <= x < |rs| ==> rs[x].item == j) ==> RecordsFor(rs, j) == rs
    ensures (forall x :: 0 <= x < |rs| ==> rs[x].item != j) ==> RecordsFor(rs, j) == []
    decreases |rs|
  {
    if rs != [] {
      RecordsForSelect(rs[1..], j);
    }
  }

  lemma PrependTwice(s1: seq<Request>, r1: seq<Record>, s2: seq<Request>, r2: seq<Record>, rest: Outcome)
    ensures Prepend(s1, r1, Prepend(s2, r2, rest)) == Prepend(s1 + s2, r1 + r2, rest)
  {
    assert s1 + (s2 + rest.sent) == (s1 + s2) + rest.sent;
    if rest.result.Ok? {
      assert r1 + (r2 + rest.result.value) == (r1 + r2) + rest.result.value;
    }
  }

  lemma PrependNothing(rest: Outcome)
    ensures Prepend([], [], rest) == rest
  {
    assert [] + rest.sent == rest.sent;
    if rest.result.Ok? {
      assert [] + rest.result.value == rest.result.value;
    }
  }

  /** One turn of the run: item `k` either ends it or prepends what it contributes. */
  lemma RunFromStep(build: Builder, items: seq<Item>, continueOnFail: bool, transport: Transport, k: nat)
    requires k < |items|
    ensures var step := ProcessItem(build, items[k], k, transport);
      var out := RunFrom(build, items, continueOnFail, transport, k);
      && (step.1.Err? && !continueOnFail ==> out == Outcome(SentSeq(step.0), Err(step.1.error)))
      && (step.1.Ok? || continueOnFail ==>
            out == Prepend(SentSeq(step.0), ItemRecords(build, items[k], k, transport),
                           RunFrom(build, items, continueOnFail, transport, k + 1)))
  {
  }

  /** The `for` loop of `execute`, with `returnData.push` and the `catch` branch. */
  method Execute(table: Table, host: Host, items: seq<Item>, continueOnFail: bool, transport: Transport)
    returns (sent: seq<Request>, result: Result<seq<Record>, Error>)
    ensures Outcome(sent, result) == Run(table, host, items, continueOnFail, transport)
  {
    var returnData: seq<Record> := [];
    sent := [];
    var i := 0;
    PrependNothing(RunFrom(BuilderOf(table, host), items, continueOnFail, transport, 0));
    while i < |items|
      invariant 0 <= i <= |items|
      invariant Run(table, host, items, continueOnFail, transport)
        == Prepend(sent, returnData, RunFrom(BuilderOf(table, host), items, continueOnFail, transport, i))
    {
      var issued, response := ProcessOne(table, host, items[i], i, transport);
      LoopStep(BuilderOf(table, host), items, continueOnFail, transport, i, sent, returnData, issued, response,
               Run(table, host, items, continueOnFail, transport));
      if issued.Some? {
        sent := sent + [issued.value];
      }
      if response.Ok? {
        returnData := returnData + Records(i, response.value);
      } else if continueOnFail {
        returnData := returnData + [Record(i, ErrorJson(response.error))];
      } else {
        return sent, Err(response.error);
      }
      i := i + 1;
    }
    LoopEnd(BuilderOf(table, host), items, continueOnFail, transport, sent, returnData,
            Run(table, host, items, continueOnFail, transport));
    result := Ok(returnData);
  }

  /** One turn of the loop of Execute, for any builder: the run that remains
      after item `i` is the one the new `sent` and `returnData` lead into, or
      the run ends with item `i`'s error. */
  lemma LoopStep(build: Builder, items: seq<Item>, continueOnFail: bool, transport: Transport, i: nat,
                 sent: seq<Request>, data: seq<Record>, issued: Option<Request>, response: Result<seq<Json>, Error>,
                 total: Outcome)
    requires i < |items|
    requires (issued, response) == ProcessItem(build, items[i], i, transport)
    requires total == Prepend(sent, data, RunFrom(build, items, continueOnFail, transport, i))
    ensures var sent' := if issued.Some? then sent + [issued.value] else sent;
      && (response.Ok? ==>
            total == Prepend(sent', data + Records(i, response.value), RunFrom(build, items, continueOnFail, transport, i + 1)))
      && (response.Err? && continueOnFail ==>
            total == Prepend(sent', data + [Record(i, ErrorJson(response.error))], RunFrom(build, items, continueOnFail, transport, i + 1)))
      && (response.Err? && !continueOnFail ==> total == Outcome(sent', Err(response.error)))
  {
    RunFromStep(build, items, continueOnFail, transport, i);
    var mine := ItemRecords(build, items[i], i, transport);
    var rest := RunFrom(build, items, continueOnFail, transport, i + 1);
    assert SentSeq(issued) == (if issued.Some? then [issued.value] else []);
    if response.Err? && !continueOnFail {
      assert sent + (SentSeq(issued) + []) == sent + SentSeq(issued);
    } else {
      PrependTwice(sent, data, SentSeq(issued), mine, rest);
    }
  }

  /** When the loop of Execute has run over every item, what it holds is the run. */
  lemma LoopEnd(build: Builder, items: seq<Item>, continueOnFail: bool, transport: Transport,
                sent: seq<Request>, data: seq<Record>, total: Outcome)
    requires total == Prepend(sent, data, RunFrom(build, items, continueOnFail, transport, |items|))
    ensures total == Outcome(sent, Ok(data))
  {
    assert sent + [] == sent && data + [] == data;
  }

  /** The `try` block of the loop for item `k`: build the request, then hand it
      to the transport; the request issued, if any, and the records or the error. */
  method ProcessOne(table: Table, host: Host, item: Item, k: nat, transport: Transport)
    returns (issued: Option<Request>, response: Result<seq<Json>, Error>)
    ensures (issued, response) == ProcessItem(BuilderOf(table, host), item, k, transport)
  {
    var prepared := PrepareRequest(table, host, item);
    if prepared.Err? {
      return None, Err(prepared.error);
    }
    issued := Some(prepared.value);
    var answer := transport(k, prepared.value);
    if answer.Ok? {
      response := Ok(answer.value);
    } else {
      response := Err(TransportFailure(answer.error));
    }
  }

  /** Without continue-on-fail, the run ends in an error exactly when some item
      fails, and then with the error of the first failing item. */
  lemma {:induction false} FirstFailureAborts(build: Builder, items: seq<Item>, transport: Transport, k: nat)
    requires k <= |items|
    ensures RunFrom(build, items, false, transport, k).result.Err? <==>
      exists j :: k <= j < |items| && ProcessItem(build, items[j], j, transport).1.Err?
    ensures RunFrom(build, items, false, transport, k).result.Err? ==>
      exists j :: k <= j < |items|
        && ProcessItem(build, items[j], j, transport).1
           == Err(RunFrom(build, items, false, transport, k).result.error)
        && forall l :: k <= l < j ==> ProcessItem(build, items[l], l, transport).1.Ok?
    decreases |items| - k
  {
    if k < |items| {
      var here := ProcessItem(build, items[k], k, transport).1;
      if here.Err? {
        assert RunFrom(build, items, false, transport, k).result == Err(here.error);
      } else {
        FirstFailureAborts(build, items, transport, k + 1);
        var rest := RunFrom(build, items, false, transport, k + 1).result;
        assert RunFrom(build, items, false, transport, k).result.Err? == rest.Err?;
        if rest.Err? {
          assert RunFrom(build, items, false, transport, k).result.error == rest.error;
          var j :| k + 1 <= j < |items|
            && ProcessItem(build, items[j], j, transport).1 == Err(rest.error)
            && forall l :: k + 1 <= l < j ==> ProcessItem(build, items[l], l, transport).1.Ok?;
          assert forall l :: k <= l < j ==> ProcessItem(build, items[l], l, transport).1.Ok?;
        }
      }
    }
  }

  /** The records item `k` contributes all belong to item `k`. */
  lemma ItemRecordsBelong(build: Builder, item: Item, k: nat, transport: Transport)
    ensures forall a :: 0 <= a < |ItemRecords(build, item, k, transport)| ==>
      ItemRecords(build, item, k, transport)[a].item == k
  {
  }

  /** The output lists the records of the items in input order, and the records
      of item `j` are exactly what that item contributes: the transport's records
      or, after a failure, one error record. */
  lemma {:induction false} OutputInItemOrder(build: Builder, items: seq<Item>, continueOnFail: bool, transport: Transport, k: nat)
    requires k <= |items|
    ensures var res := RunFrom(build, items, continueOnFail, transport, k).result;
      res.Ok? ==>
        && (forall a :: 0 <= a < |res.value| ==> k <= res.value[a].item < |items|)
        && (forall a, b :: 0 <= a < b < |res.value| ==> res.value[a].item <= res.value[b].item)
        && (forall j :: k <= j < |items| ==>
              RecordsFor(res.value, j) == ItemRecords(build, items[j], j, transport))
    decreases |items| - k
  {
    var res := RunFrom(build, items, continueOnFail, transport, k).result;
    if k < |items| && res.Ok? {
      RunFromStep(build, items, continueOnFail, transport, k);
      var step := ProcessItem(build, items[k], k, transport);
      assert step.1.Ok? || continueOnFail;
      var rest := RunFrom(build, items, continueOnFail, transport, k + 1).result;
      OutputInItemOrder(build, items, continueOnFail, transport, k + 1);
      var mine := ItemRecords(build, items[k], k, transport);
      ItemRecordsBelong(build, items[k], k, transport);
      assert rest.Ok? && res.value == mine + rest.value;
      OrderedConcat(mine, rest.value, k, |items|);
      forall j | k <= j < |items|
        ensures RecordsFor(res.value, j) == ItemRecords(build, items[j], j, transport)
      {
        RecordsForSplit(mine, rest.value, k, j);
      }
    }
  }

  lemma RecordsForSplit(mine: seq<Record>, rest: seq<Record>, k: nat, j: nat)
    requires k <= j
    requires forall a :: 0 <= a < |mine| ==> mine[a].item == k
    requires forall a :: 0 <= a < |rest| ==> k + 1 <= rest[a].item
    ensures RecordsFor(mine + rest, j) == if j == k then mine else RecordsFor(rest, j)
  {
    RecordsForConcat(mine, rest, j);
    RecordsForSelect(mine, j);
    RecordsForSelect(rest, j);
  }

  lemma OrderedConcat(mine: seq<Record>, rest: seq<Record>, k: nat, n: nat)
    requires k < n
    requires forall a :: 0 <= a < |mine| ==> mine[a].item == k
    requires forall a :: 0 <= a < |rest| ==> k + 1 <= rest[a].item < n
    requires forall a, b :: 0 <= a < b < |rest| ==> rest[a].item <= rest[b].item
    ensures forall a :: 0 <= a < |mine + rest| ==> k <= (mine + rest)[a].item < n
    ensures forall a, b :: 0 <= a < b < |mine + rest| ==> (mine + rest)[a].item <= (mine + rest)[b].item
  {
  }

  /** The request an item's build issues: the built request, or none when the
      build fails. */
  function Issued(built: Result<Request, Error>): (rs: seq<Request>)
  {
    if built.Ok? then [built.value] else []
  }

  /** The requests built for `items`, in order, leaving out the items whose
      build fails. */
  function Built(build: Builder, items: seq<Item>): (rs: seq<Request>)
    ensures |rs| <= |items|
    decreases |items|
  {
    if items == [] then [] else Issued(build(items[0])) + Built(build, items[1..])
  }

  lemma BuiltSplit(build: Builder, items: seq<Item>, k: nat, n: nat)
    requires k < n <= |items|
    ensures Built(build, items[k..n]) == Issued(build(items[k])) + Built(build, items[k + 1..n])
  {
    assert items[k..n][0] == items[k];
    assert items[k..n][1..] == items[k + 1..n];
  }

  /** The requests a run issues are the ones built for its items, in item order,
      one per item whose build succeeds: for all items when the run completes or
      continues on failure, and up to the first failing item, included, when
      that item ends the run. */
  lemma SentRequestsAreBuilt(build: Builder, items: seq<Item>, continueOnFail: bool, transport: Transport, k: nat)
    requires k <= |items|
    ensures var out := RunFrom(build, items, continueOnFail, transport, k);
      continueOnFail || out.result.Ok? ==> out.sent == Built(build, items[k..])
    ensures var out := RunFrom(build, items, continueOnFail, transport, k);
      !continueOnFail && out.result.Err? ==>
        exists j :: k <= j < |items|
          && ProcessItem(build, items[j], j, transport).1.Err?
          && (forall l :: k <= l < j ==> ProcessItem(build, items[l], l, transport).1.Ok?)
          && out.sent == Built(build, items[k..j + 1])
  {
    SentWhenRunCompletes(build, items, continueOnFail, transport, k);
    SentWhenRunAborts(build, items, transport, k);
  }

  lemma {:induction false} SentWhenRunCompletes(build: Builder, items: seq<Item>, continueOnFail: bool, transport: Transport, k: nat)
    requires k <= |items|
    ensures var out := RunFrom(build, items, continueOnFail, transport, k);
      continueOnFail || out.result.Ok? ==> out.sent == Built(build, items[k..])
    decreases |items| - k
  {
    var out := RunFrom(build, items, continueOnFail, transport, k);
    if k == |items| {
      assert items[k..] == [];
    } else if continueOnFail || out.result.Ok? {
      RunFromStep(build, items, continueOnFail, transport, k);
      var step := ProcessItem(build, items[k], k, transport);
      assert step.1.Ok? || continueOnFail;
      assert SentSeq(step.0) == Issued(build(items[k]));
      SentWhenRunCompletes(build, items, continueOnFail, transport, k + 1);
      BuiltSplit(build, items, k, |items|);
      assert items[k..|items|] == items[k..] && items[k + 1..|items|] == items[k + 1..];
    }
  }

  lemma {:induction false} SentWhenRunAborts(build: Builder, items: seq<Item>, transport: Transport, k: nat)
    requires k <= |items|
    ensures var out := RunFrom(build, items, false, transport, k);
      out.result.Err? ==>
        exists j :: k <= j < |items|
          && ProcessItem(build, items[j], j, transport).1.Err?
          && (forall l :: k <= l < j ==> ProcessItem(build, items[l], l, transport).1.Ok?)
          && out.sent == Built(build, items[k..j + 1])
    decreases |items| - k
  {
    var out := RunFrom(build, items, false, transport, k);
    if k < |items| && out.result.Err? {
      RunFromStep(build, items, false, transport, k);
      var step := ProcessItem(build, items[k], k, transport);
      assert SentSeq(step.0) == Issued(build(items[k]));
      if step.1.Err? {
        BuiltSplit(build, items, k, k + 1);
        assert items[k + 1..k + 1] == [];
      } else {
        var rest := RunFrom(build, items, false, transport, k + 1);
        assert out.sent == Issued(build(items[k])) + rest.sent && rest.result.Err?;
        SentWhenRunAborts(build, items, transport, k + 1);
        var j :| k + 1 <= j < |items|
          && ProcessItem(build, items[j], j, transport).1.Err?
          && (forall l :: k + 1 <= l < j ==> ProcessItem(build, items[l], l, transport).1.Ok?)
          && rest.sent == Built(build, items[k + 1..j + 1]);
        AbortShift(build, items, transport, k, j, out.sent, rest.sent);
      }
    }
  }

  /** The first failing item after `k`, when item `k` succeeds, is the first
      failing item from `k` on, and item `k`'s request comes first. */
  lemma AbortShift(build: Builder, items: seq<Item>, transport: Transport, k: nat, j: nat,
                   sent: seq<Request>, rest: seq<Request>)
    requires k < j < |items| && ProcessItem(build, items[k], k, transport).1.Ok?
    requires forall l :: k + 1 <= l < j ==> ProcessItem(build, items[l], l, transport).1.Ok?
    requires rest == Built(build, items[k + 1..j + 1])
    requires sent == Issued(build(items[k])) + rest
    ensures forall l :: k <= l < j ==> ProcessItem(build, items[l], l, transport).1.Ok?
    ensures sent == Built(build, items[k..j + 1])
  {
    BuiltSplit(build, items, k, j + 1);
  }

  /** Without continue-on-fail, a run that ends without an error issued exactly
      one request per item, the one built for it, in item order. */
  lemma {:induction false} CompleteRunSendsEachRequest(build: Builder, items: seq<Item>, transport: Transport, k: nat)
    requires k <= |items|
    requires RunFrom(build, items, false, transport, k).result.Ok?
    ensures var sent := RunFrom(build, items, false, transport, k).sent;
      && |sent| == |items| - k
      && forall j :: k <= j < |items| ==> build(items[j]) == Ok(sent[j - k])
    decreases |items| - k
  {
    if k < |items| {
      RunFromStep(build, items, false, transport, k);
      var step := ProcessItem(build, items[k], k, transport);
      assert step.1.Ok?;
      CompleteRunSendsEachRequest(build, items, transport, k + 1);
      var rest := RunFrom(build, items, false, transport, k + 1).sent;
      var sent := RunFrom(build, items, false, transport, k).sent;
      assert sent == [step.0.value] + rest;
      forall j | k <= j < |items|
        ensures build(items[j]) == Ok(sent[j - k])
      {
        if j > k {
          assert sent[j - k] == rest[j - (k + 1)];
        }
      }
    }
  }
}
