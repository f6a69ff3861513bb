/**
 * Endpoint templates: the placeholder scan `endpoint.match(/{([^}]+)}/g)`, the
 * name extraction `param.replace('{', '').replace('}', '')` and the first-occurrence
 * replacement `endpoint.replace(param, value)` of JavaScript strings, including the
 * `$$`, `$&`, `` $` `` and `$'` patterns that a string replacement expands.
 */
module Template {
  import opened Wrappers

  /** A text the pattern `{([^}]+)}` matches in full: a brace, at least one
      character other than a closing brace, and a closing brace. */
  predicate IsPlaceholder(m: string) {
    && |m| >= 3
    && m[0] == '{'
    && m[|m| - 1] == '}'
    && forall x :: 1 <= x < |m| - 1 ==> m[x] != '}'
  }

  /** A resolved value that the sequential replacement leaves intact and that
      cannot form a placeholder: no braces and no `$`. */
  predicate Clean(v: string) {
    '{' !in v && '}' !in v && '$' !in v
  }

  /** The first index at or after `k` that holds a closing brace. */
  function CloseFrom(w: string, k: nat): (q: Option<nat>)
    requires k <= |w|
    ensures q.Some? ==> k <= q.value < |w| && w[q.value] == '}' && forall x :: k <= x < q.value ==> w[x] != '}'
    ensures q.None? ==> forall x :: k <= x < |w| ==> w[x] != '}'
    decreases |w| - k
  {
    if k == |w| then None
    else if w[k] == '}' then Some(k)
    else CloseFrom(w, k + 1)
  }

  /** The length of the match of `{([^}]+)}` that starts at the beginning of `w`,
      or 0 when the pattern does not match there. */
  function PlaceholderLen(w: string): (n: nat)
    ensures n > 0 ==> n <= |w| && IsPlaceholder(w[..n])
    ensures n == 0 ==> forall k :: 0 <= k <= |w| ==> !IsPlaceholder(w[..k])
  {
    if |w| == 0 || w[0] != '{' then 0
    else match CloseFrom(w, 1)
      case None => 0
      case Some(q) => if q > 1 then q + 1 else 0
  }

  /** The global matches of `{([^}]+)}` in `s`, scanning from `p`: a match is
      taken where one starts, and the scan resumes after it. */
  function PlaceholdersFrom(s: string, p: nat): (ms: seq<string>)
    requires p <= |s|
    ensures forall k :: 0 <= k < |ms| ==> IsPlaceholder(ms[k])
    decreases |s| - p
  {
    if p == |s| then []
    else
      var n := PlaceholderLen(s[p..]);
      if n == 0 then PlaceholdersFrom(s, p + 1)
      else
        assert s[p..p + n] == s[p..][..n];
        [s[p..p + n]] + PlaceholdersFrom(s, p + n)
  }

  /** `s.match(/{([^}]+)}/g) || []`: the placeholders of `s`, in order; none
      exactly when no placeholder starts anywhere in `s`. */
  function Placeholders(s: string): (ms: seq<string>)
    ensures forall k :: 0 <= k < |ms| ==> IsPlaceholder(ms[k])
    ensures ms == [] <==> NoPlaceholderFrom(s, 0)
  {
    NoPlaceholderIff(s, 0);
    PlaceholdersFrom(s, 0)
  }

  /** No match of the pattern starts at or after `p`. */
  ghost predicate NoPlaceholderFrom(s: string, p: nat)
    requires p <= |s|
  {
    forall y :: p <= y < |s| ==> PlaceholderLen(s[y..]) == 0
  }

  lemma {:induction false} NoPlaceholderIff(s: string, p: nat)
    requires p <= |s|
    ensures PlaceholdersFrom(s, p) == [] <==> NoPlaceholderFrom(s, p)
    decreases |s| - p
  {
    if p < |s| {
      NoPlaceholderIff(s, p + 1);
    }
  }

  /** `pat` occurs in `s` at index `k`. */
  predicate OccursAt(s: string, pat: string, k: nat) {
    k + |pat| <= |s| && s[k..k + |pat|] == pat
  }

  /** `s.indexOf(pat, k)`: the first occurrence at or after `k`. */
  function IndexOfFrom(s: string, pat: string, k: nat): (r: Option<nat>)
    requires k <= |s|
    ensures r.Some? ==> k <= r.value && r.value + |pat| <= |s|
    decreases |s| - k
  {
    if OccursAt(s, pat, k) then Some(k)
    else if k == |s| then None
    else IndexOfFrom(s, pat, k + 1)
  }

  /** The index found is the first occurrence at or after `k`; when none is
      found, the pattern occurs nowhere from `k` on. */
  lemma {:induction false} IndexOfFromFirst(s: string, pat: string, k: nat)
    requires k <= |s|
    ensures var r := IndexOfFrom(s, pat, k);
      && (r.Some? ==> k <= r.value && OccursAt(s, pat, r.value) && forall x :: k <= x < r.value ==> !OccursAt(s, pat, x))
      && (r.None? ==> forall x :: k <= x <= |s| ==> !OccursAt(s, pat, x))
    decreases |s| - k
  {
    if !OccursAt(s, pat, k) && k < |s| {
      IndexOfFromFirst(s, pat, k + 1);
    }
  }

  /** The expansion of a replacement string for a match of `matched` with the
      text `before` it and `after` it: `$$` gives `$`, `$&` the match, `` $` ``
      the text before it, `$'` the text after it; any other `$` stays as it is.
      A replacement without `$` is inserted literally. */
  function Substitution(matched: string, before: string, after: string, t: string): (r: string)
    ensures '$' !in t ==> r == t
    decreases |t|
  {
    if |t| == 0 then ""
    else if t[0] == '$' && |t| >= 2 && t[1] == '$' then "$" + Substitution(matched, before, after, t[2..])
    else if t[0] == '$' && |t| >= 2 && t[1] == '&' then matched + Substitution(matched, before, after, t[2..])
    else if t[0] == '$' && |t| >= 2 && t[1] == '`' then before + Substitution(matched, before, after, t[2..])
    else if t[0] == '$' && |t| >= 2 && t[1] == '\'' then after + Substitution(matched, before, after, t[2..])
    else [t[0]] + Substitution(matched, before, after, t[1..])
  }

  /** `s.replace(pat, rep)` with a string pattern: only the first occurrence is
      replaced, by the expansion of `rep`. */
  function ReplaceFirst(s: string, pat: string, rep: string): string {
    match IndexOfFrom(s, pat, 0)
    case None => s
    case Some(k) => s[..k] + Substitution(pat, s[..k], s[k + |pat|..], rep) + s[k + |pat|..]
  }

  /** `param.replace('{', '').replace('}', '')`: for a placeholder, the text
      between its braces. */
  function ParamName(m: string): (name: string)
    ensures IsPlaceholder(m) ==> name == m[1..|m| - 1]
  {
    StripBraces(m);
    ReplaceFirst(ReplaceFirst(m, "{", ""), "}", "")
  }

  /** The replacements, one after another, of `ms[k]` by `vals[k]`. */
  function ReplaceEach(u: string, ms: seq<string>, vals: seq<string>): string
    requires |ms| == |vals|
    decreases |ms|
  {
    if ms == [] then u else ReplaceEach(ReplaceFirst(u, ms[0], vals[0]), ms[1..], vals[1..])
  }

  /** The reference meaning of a filled template: the text of `s` from `p` on,
      with its k-th placeholder (in scan order) replaced by `vals[k]`. */
  function FillFrom(s: string, p: nat, vals: seq<string>): string
    requires p <= |s| && |vals| == |PlaceholdersFrom(s, p)|
    decreases |s| - p
  {
    if p == |s| then ""
    else
      var n := PlaceholderLen(s[p..]);
      if n == 0 then [s[p]] + FillFrom(s, p + 1, vals)
      else vals[0] + FillFrom(s, p + n, vals[1..])
  }

  function Fill(s: string, vals: seq<string>): string
    requires |vals| == |Placeholders(s)|
  {
    FillFrom(s, 0, vals)
  }

  /** Where the first occurrence is known, the replacement is at that index. */
  lemma ReplaceFirstAt(s: string, pat: string, rep: string, k: nat)
    requires OccursAt(s, pat, k)
    requires forall x :: 0 <= x < k ==> !OccursAt(s, pat, x)
    requires '$' !in rep
    ensures ReplaceFirst(s, pat, rep) == s[..k] + rep + s[k + |pat|..]
  {
    IndexOfFromFirst(s, pat, 0);
    var r := IndexOfFrom(s, pat, 0);
    assert r == Some(k);
  }

  /** Removing the first `{` and then the first `}` of a placeholder leaves the
      text between its braces. */
  lemma StripBraces(m: string)
    ensures IsPlaceholder(m) ==> ReplaceFirst(ReplaceFirst(m, "{", ""), "}", "") == m[1..|m| - 1]
  {
    if IsPlaceholder(m) {
      StripOpen(m);
      AfterOpen(m);
      StripClose(m[1..]);
      assert m[1..][..|m| - 2] == m[1..|m| - 1];
    }
  }

  /** Past its `{`, a placeholder has its only `}` at its end. */
  lemma AfterOpen(m: string)
    requires IsPlaceholder(m)
    ensures var w := m[1..];
      && |w| > 0 && w[|w| - 1] == '}' && forall x :: 0 <= x < |w| - 1 ==> w[x] != '}'
  {
    var w := m[1..];
    forall x | 0 <= x < |w| - 1 ensures w[x] != '}' {
      assert w[x] == m[x + 1];
    }
  }

  /** The first `{` of a text that starts with one is its first character. */
  lemma StripOpen(m: string)
    requires |m| > 0 && m[0] == '{'
    ensures ReplaceFirst(m, "{", "") == m[1..]
  {
    assert m[0..1] == "{";
    ReplaceFirstAt(m, "{", "", 0);
  }

  /** The first `}` of a text whose only `}` ends it is its last character. */
  lemma StripClose(w: string)
    requires |w| > 0 && w[|w| - 1] == '}'
    requires forall x :: 0 <= x < |w| - 1 ==> w[x] != '}'
    ensures ReplaceFirst(w, "}", "") == w[..|w| - 1]
  {
    var k := |w| - 1;
    assert w[k..k + 1] == "}";
    forall x | 0 <= x < k ensures !OccursAt(w, "}", x) {
      assert w[x..x + 1][0] == w[x];
    }
    ReplaceFirstAt(w, "}", "", k);
    assert w[k + 1..] == [];
  }

  /** A value `$&` re-inserts the text it replaces: the endpoint is unchanged,
      so its placeholder is still there. */
  lemma MatchPatternKeepsText(s: string, pat: string)
    ensures ReplaceFirst(s, pat, "$&") == s
  {
    IndexOfFromFirst(s, pat, 0);
    match IndexOfFrom(s, pat, 0)
    case None =>
    case Some(k) =>
      assert Substitution(pat, s[..k], s[k + |pat|..], "$&") == pat + Substitution(pat, s[..k], s[k + |pat|..], "");
      assert s[..k] + pat + s[k + |pat|..] == s;
  }

  /** Every opening brace before index `k` of `u` is directly followed by a
      closing brace. */
  ghost predicate BracesClosedBefore(u: string, k: nat)
    requires k <= |u|
  {
    forall x :: 0 <= x < k ==> BraceClosedAt(u, x)
  }

  /** The character at index `x` of `u`, if an opening brace, is directly
      followed by a closing brace. */
  ghost predicate BraceClosedAt(u: string, x: nat)
    requires x < |u|
  {
    u[x] == '{' ==> x + 1 < |u| && u[x + 1] == '}'
  }

  /** No placeholder occurs in the part of `u` whose braces are closed. */
  lemma NoOccurrenceBefore(u: string, k: nat, m: string)
    requires k <= |u| && BracesClosedBefore(u, k) && IsPlaceholder(m)
    ensures forall x :: 0 <= x < k ==> !OccursAt(u, m, x)
  {
    forall x | 0 <= x < k ensures !OccursAt(u, m, x) {
      if x + |m| <= |u| {
        assert BraceClosedAt(u, x);
        assert u[x..x + |m|][0] == u[x];
        assert u[x..x + |m|][1] == u[x + 1];
        assert m[1] != '}';
      }
    }
  }

  /** A template with no placeholder left fills to itself. */
  lemma {:induction false} FillFromNone(s: string, p: nat)
    requires p <= |s| && PlaceholdersFrom(s, p) == []
    ensures FillFrom(s, p, []) == s[p..]
    decreases |s| - p
  {
    if p < |s| {
      NoPlaceholderIff(s, p);
      NoPlaceholderIff(s, p + 1);
      FillFromNone(s, p + 1);
      assert s[p..] == [s[p]] + s[p + 1..];
    }
  }

  /** An opening brace the scan passes over, with a placeholder still to come,
      is directly followed by a closing brace. */
  lemma GapBraceClosed(t: string, p: nat)
    requires p < |t| && t[p] == '{' && PlaceholderLen(t[p..]) == 0 && PlaceholdersFrom(t, p) != []
    ensures p + 1 < |t| && t[p + 1] == '}'
  {
    NoPlaceholderIff(t, p);
    var y :| p <= y < |t| && PlaceholderLen(t[y..]) != 0;
    var n := PlaceholderLen(t[y..]);
    assert t[y + n - 1] == t[y..][..n][n - 1] == '}';
    var q := CloseFrom(t, p + 1);
    assert q.Some?;
    var w := t[p..];
    assert w[..q.value - p + 1] == t[p..q.value + 1];
  }

  /** With nothing left to replace, no placeholder is left in the text. */
  lemma NoneLeft(prefix: string, t: string, p: nat)
    requires p <= |t| && PlaceholdersFrom(t, p) == []
    requires BracesClosedBefore(prefix + t[p..], |prefix|)
    ensures Placeholders(prefix + t[p..]) == []
  {
    var u := prefix + t[p..];
    NoPlaceholderIff(t, p);
    forall y | 0 <= y < |u| ensures PlaceholderLen(u[y..]) == 0 {
      if y < |prefix| {
        if u[y] == '{' {
          assert BraceClosedAt(u, y);
          assert u[y..][1] == '}';
        } else {
          assert u[y..][0] != '{';
        }
      } else {
        assert u[y..] == t[p + y - |prefix|..];
      }
    }
    NoPlaceholderIff(u, 0);
  }

  /** Passing over a character that starts no match keeps the invariant. */
  lemma GapStep(prefix: string, t: string, p: nat)
    requires p < |t| && PlaceholderLen(t[p..]) == 0 && PlaceholdersFrom(t, p) != []
    requires BracesClosedBefore(prefix + t[p..], |prefix|)
    ensures (prefix + [t[p]]) + t[p + 1..] == prefix + t[p..]
    ensures BracesClosedBefore((prefix + [t[p]]) + t[p + 1..], |prefix| + 1)
  {
    assert (prefix + [t[p]]) + t[p + 1..] == prefix + t[p..];
    if t[p] == '{' {
      GapBraceClosed(t, p);
    }
  }

  /** The first occurrence of a placeholder that starts right after the closed
      part is that one, and the replacement lands there. */
  lemma ReplaceAtBoundary(prefix: string, r: string, m: string, v: string)
    requires IsPlaceholder(m) && |m| <= |r| && r[..|m|] == m && '$' !in v
    requires BracesClosedBefore(prefix + r, |prefix|)
    ensures ReplaceFirst(prefix + r, m, v) == prefix + v + r[|m|..]
  {
    var u := prefix + r;
    NoOccurrenceBefore(u, |prefix|, m);
    assert u[|prefix|..|prefix| + |m|] == m;
    ReplaceFirstAt(u, m, v, |prefix|);
    assert u[..|prefix|] == prefix;
    assert u[|prefix| + |m|..] == r[|m|..];
  }

  /** After the replacement the closed part extends over the value. */
  lemma ClosedAfterReplace(prefix: string, r: string, v: string, rest: string)
    requires |r| > 0 && r[0] == '{' && '{' !in v
    requires BracesClosedBefore(prefix + r, |prefix|)
    ensures BracesClosedBefore(prefix + v + rest, |prefix| + |v|)
  {
    var u := prefix + r;
    var u' := prefix + v + rest;
    forall x | 0 <= x < |prefix| + |v| && u'[x] == '{'
      ensures x + 1 < |u'| && u'[x + 1] == '}'
    {
      if x < |prefix| {
        assert BraceClosedAt(u, x);
        assert u[x] == prefix[x] == '{';
        assert u[|prefix|] == '{';
        assert x + 1 < |prefix|;
        assert u'[x + 1] == prefix[x + 1] == u[x + 1];
      }
    }
  }

  /** Replacing the match at the boundary by a clean value: the replacement
      lands there, and the invariant moves past the value. */
  lemma MatchStep(prefix: string, m: string, rest: string, v: string)
    requires IsPlaceholder(m) && Clean(v)
    requires BracesClosedBefore(prefix + (m + rest), |prefix|)
    ensures ReplaceFirst(prefix + (m + rest), m, v) == (prefix + v) + rest
    ensures BracesClosedBefore((prefix + v) + rest, |prefix + v|)
  {
    var r := m + rest;
    assert r[..|m|] == m;
    assert r[|m|..] == rest;
    ReplaceAtBoundary(prefix, r, m, v);
    ClosedAfterReplace(prefix, r, v, rest);
  }

  /** The state of the scan in ReplaceEachFills: the text before `p` has been
      filled into `prefix`, `vals` are the values still to place, and every
      brace of `prefix` is closed. */
  ghost predicate FillState(prefix: string, t: string, p: nat, vals: seq<string>) {
    && p <= |t| && |vals| == |PlaceholdersFrom(t, p)| && AllClean(vals)
    && BracesClosedBefore(prefix + t[p..], |prefix|)
  }

  /**
   * The sequential first-occurrence replacement that the node performs fills the
   * template: when no value holds a brace or a `$`, replacing each match, in
   * order, by its value gives the template with its k-th placeholder replaced
   * by the k-th value, and no placeholder is left.
   */
  lemma {:induction false} ReplaceEachFills(prefix: string, t: string, p: nat, vals: seq<string>)
    requires FillState(prefix, t, p, vals)
    ensures ReplaceEach(prefix + t[p..], PlaceholdersFrom(t, p), vals) == prefix + FillFrom(t, p, vals)
    ensures Placeholders(prefix + FillFrom(t, p, vals)) == []
    decreases |t| - p
  {
    if PlaceholdersFrom(t, p) == [] {
      FillFromNone(t, p);
      NoneLeft(prefix, t, p);
    } else {
      var prefix', p', vals' := FillStep(prefix, t, p, vals);
      ReplaceEachFills(prefix', t, p', vals');
    }
  }

  /** One step of the scan: past a character that starts no match, or past a
      match, which is replaced by the first value. Both sides of the claim of
      ReplaceEachFills are unchanged by the step. */
  lemma FillStep(prefix: string, t: string, p: nat, vals: seq<string>)
      returns (prefix': string, p': nat, vals': seq<string>)
    requires FillState(prefix, t, p, vals) && PlaceholdersFrom(t, p) != []
    ensures p < p' && FillState(prefix', t, p', vals')
    ensures ReplaceEach(prefix + t[p..], PlaceholdersFrom(t, p), vals)
         == ReplaceEach(prefix' + t[p'..], PlaceholdersFrom(t, p'), vals')
    ensures prefix + FillFrom(t, p, vals) == prefix' + FillFrom(t, p', vals')
  {
    if PlaceholderLen(t[p..]) == 0 {
      prefix', p', vals' := GapCase(prefix, t, p, vals);
    } else {
      prefix', p', vals' := MatchCase(prefix, t, p, vals);
    }
  }

  lemma GapCase(prefix: string, t: string, p: nat, vals: seq<string>)
      returns (prefix': string, p': nat, vals': seq<string>)
    requires FillState(prefix, t, p, vals) && PlaceholdersFrom(t, p) != []
    requires PlaceholderLen(t[p..]) == 0
    ensures p < p' && FillState(prefix', t, p', vals')
    ensures ReplaceEach(prefix + t[p..], PlaceholdersFrom(t, p), vals)
         == ReplaceEach(prefix' + t[p'..], PlaceholdersFrom(t, p'), vals')
    ensures prefix + FillFrom(t, p, vals) == prefix' + FillFrom(t, p', vals')
  {
    prefix', p', vals' := prefix + [t[p]], p + 1, vals;
    GapStep(prefix, t, p);
    assert PlaceholdersFrom(t, p) == PlaceholdersFrom(t, p + 1);
    assert FillFrom(t, p, vals) == [t[p]] + FillFrom(t, p + 1, vals);
    ConcatAssoc(prefix, [t[p]], FillFrom(t, p + 1, vals));
  }

  lemma MatchCase(prefix: string, t: string, p: nat, vals: seq<string>)
      returns (prefix': string, p': nat, vals': seq<string>)
    requires FillState(prefix, t, p, vals) && PlaceholderLen(t[p..]) > 0
    ensures p < p' && FillState(prefix', t, p', vals')
    ensures ReplaceEach(prefix + t[p..], PlaceholdersFrom(t, p), vals)
         == ReplaceEach(prefix' + t[p'..], PlaceholdersFrom(t, p'), vals')
    ensures prefix + FillFrom(t, p, vals) == prefix' + FillFrom(t, p', vals')
  {
    var n := PlaceholderLen(t[p..]);
    MatchPrep(prefix, t, p, vals);
    prefix', p', vals' := prefix + vals[0], p + n, vals[1..];
    ReplaceEachCons(prefix + t[p..], t[p..p + n], PlaceholdersFrom(t, p + n), vals,
      prefix' + t[p'..], ReplaceEach(prefix' + t[p'..], PlaceholdersFrom(t, p'), vals'));
    ConcatAssoc(prefix, vals[0], FillFrom(t, p', vals'));
  }

  /** Everything the match case needs about the match at `p`: where it ends,
      what replacing it does, and how the placeholders and the fill split there. */
  lemma MatchPrep(prefix: string, t: string, p: nat, vals: seq<string>)
    requires FillState(prefix, t, p, vals) && PlaceholderLen(t[p..]) > 0
    ensures var n := PlaceholderLen(t[p..]);
      && p + n <= |t| && |vals| > 0 && |vals[1..]| == |PlaceholdersFrom(t, p + n)|
      && AllClean(vals[1..])
      && BracesClosedBefore((prefix + vals[0]) + t[p + n..], |prefix + vals[0]|)
      && ReplaceFirst(prefix + t[p..], t[p..p + n], vals[0]) == (prefix + vals[0]) + t[p + n..]
      && PlaceholdersFrom(t, p) == [t[p..p + n]] + PlaceholdersFrom(t, p + n)
      && FillFrom(t, p, vals) == vals[0] + FillFrom(t, p + n, vals[1..])
  {
    var n := PlaceholderLen(t[p..]);
    SplitAtMatch(t, p);
    PlaceholdersFromMatch(t, p);
    FillFromMatch(t, p, vals);
    MatchStep(prefix, t[p..p + n], t[p + n..], vals[0]);
  }

  /** No value holds a brace or a dollar sign, stated one value at a time. */
  predicate AllClean(vals: seq<string>)
    decreases |vals|
  {
    |vals| == 0 || (Clean(vals[0]) && AllClean(vals[1..]))
  }

  lemma {:induction false} AllCleanEach(vals: seq<string>)
    requires forall k :: 0 <= k < |vals| ==> Clean(vals[k])
    ensures AllClean(vals)
    decreases |vals|
  {
    if |vals| > 0 {
      assert forall k :: 0 <= k < |vals[1..]| ==> vals[1..][k] == vals[k + 1];
      AllCleanEach(vals[1..]);
    }
  }

  /** A match at `p` is the next element of the scan, which resumes after it. */
  lemma PlaceholdersFromMatch(t: string, p: nat)
    requires p < |t| && PlaceholderLen(t[p..]) > 0
    ensures var n := PlaceholderLen(t[p..]);
      PlaceholdersFrom(t, p) == [t[p..p + n]] + PlaceholdersFrom(t, p + n)
  {
    var n := PlaceholderLen(t[p..]);
    assert t[p..p + n] == t[p..][..n];
  }

  /** The filled text at a match is its value followed by the rest, filled. */
  lemma FillFromMatch(t: string, p: nat, vals: seq<string>)
    requires p < |t| && |vals| == |PlaceholdersFrom(t, p)| && PlaceholderLen(t[p..]) > 0
    ensures var n := PlaceholderLen(t[p..]);
      && |vals| > 0 && |vals[1..]| == |PlaceholdersFrom(t, p + n)|
      && FillFrom(t, p, vals) == vals[0] + FillFrom(t, p + n, vals[1..])
  {
    PlaceholdersFromMatch(t, p);
  }

  /** A match at `p` splits the rest of the template into the match and what follows. */
  lemma SplitAtMatch(t: string, p: nat)
    requires p < |t| && PlaceholderLen(t[p..]) > 0
    ensures var n := PlaceholderLen(t[p..]);
      && p + n <= |t| && IsPlaceholder(t[p..p + n]) && t[p..] == t[p..p + n] + t[p + n..]
  {
    var n := PlaceholderLen(t[p..]);
    assert t[p..][..n] == t[p..p + n];
  }

  /** The replacements of `[m] + ms`: first `m`, then the others in the result. */
  lemma ReplaceEachCons(u: string, m: string, ms: seq<string>, vals: seq<string>, replaced: string, filled: string)
    requires |vals| == |ms| + 1
    requires ReplaceFirst(u, m, vals[0]) == replaced
    requires ReplaceEach(replaced, ms, vals[1..]) == filled
    ensures ReplaceEach(u, [m] + ms, vals) == filled
  {
    assert ([m] + ms)[0] == m;
    assert ([m] + ms)[1..] == ms;
  }

  lemma ConcatAssoc(a: string, b: string, c: string)
    ensures a + (b + c) == (a + b) + c
  {
  }

  /** The theorem for a whole template. */
  lemma ReplaceEachFillsTemplate(t: string, vals: seq<string>)
    requires |vals| == |Placeholders(t)|
    requires forall k :: 0 <= k < |vals| ==> Clean(vals[k])
    ensures ReplaceEach(t, Placeholders(t), vals) == Fill(t, vals)
    ensures Placeholders(Fill(t, vals)) == []
  {
    assert "" + t[0..] == t;
    AllCleanEach(vals);
    assert FillState("", t, 0, vals);
    ReplaceEachFills("", t, 0, vals);
    assert "" + Fill(t, vals) == Fill(t, vals);
  }
}
