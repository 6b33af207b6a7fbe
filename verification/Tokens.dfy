/**
 Normalising an Asset's tags and uses: trimmed, each kept once whatever its
 case, in a stable order.
 */
module Tokens {
  import opened Wrappers
  import opened CanonicalJson
  import opened Commands

  const MAX_ASSET_TOKENS := 64
  const MAX_ASSET_TOKEN_CHARS := 100

  // The Unicode functions of the standard library: trimming white space, and the
  // UTF-8 bytes of the lower-case text, by which tokens are ordered.
  datatype Unicode = Unicode(trim: string -> string, key: string -> Text)

  ghost predicate Trims(u: Unicode) {
    forall s: string {:trigger u.trim(s)} :: u.trim(u.trim(s)) == u.trim(s)
  }

  predicate Acceptable(token: string) {
    token != [] && '\0' !in token && |token| <= MAX_ASSET_TOKEN_CHARS
  }

  // No token may be empty, longer than 100 characters, or hold a NUL.
  ghost predicate Unfit(token: string) { |token| == 0 || |token| > 100 || '\0' in token }

  predicate SameToken(a: string, b: string) { Lower(a) == Lower(b) }

  function Trimmed(u: Unicode, values: seq<string>): (r: seq<string>)
    ensures |r| == |values|
  {
    seq(|values|, i requires 0 <= i < |values| => u.trim(values[i]))
  }

  predicate Repeats(kept: seq<string>, token: string) { exists e <- kept :: SameToken(e, token) }

  // The first of every set of tokens that differ only in ASCII case.
  function Kept(tokens: seq<string>): seq<string> {
    if tokens == [] then [] else
      var front, last := Kept(tokens[..|tokens| - 1]), tokens[|tokens| - 1];
      if Repeats(front, last) then front else front + [last]
  }

  // A stable sort: a token goes after those that are not above it.
  function Put(u: Unicode, sorted: seq<string>, x: string): seq<string> {
    if sorted == [] then [x]
    else if Less(u.key(x), u.key(sorted[|sorted| - 1]))
    then Put(u, sorted[..|sorted| - 1], x) + [sorted[|sorted| - 1]]
    else sorted + [x]
  }

  function StableSort(u: Unicode, tokens: seq<string>): seq<string> {
    if tokens == [] then [] else Put(u, StableSort(u, tokens[..|tokens| - 1]), tokens[|tokens| - 1])
  }

  function Normalized(u: Unicode, values: seq<string>): seq<string> {
    StableSort(u, Kept(Trimmed(u, values)))
  }

  /** What a stable sort is. */

  ghost predicate InOrder(u: Unicode, s: seq<string>) {
    forall i, j | 0 <= i < j < |s| :: !Less(u.key(s[j]), u.key(s[i]))
  }

  // The tokens with one key, in the order they have.
  function With(u: Unicode, s: seq<string>, k: Text): seq<string> {
    if s == [] then [] else
      With(u, s[..|s| - 1], k) + if u.key(s[|s| - 1]) == k then [s[|s| - 1]] else []
  }

  ghost predicate SameRuns(u: Unicode, a: seq<string>, b: seq<string>) {
    forall k {:trigger With(u, a, k)} {:trigger With(u, b, k)} :: With(u, a, k) == With(u, b, k)
  }

  lemma WithLast(u: Unicode, s: seq<string>, x: string, k: Text)
    ensures With(u, s + [x], k) == if u.key(x) == k then With(u, s, k) + [x] else With(u, s, k)
  {
    assert (s + [x])[..|s|] == s;
  }

  lemma {:induction false} PutBag(u: Unicode, sorted: seq<string>, x: string)
    ensures multiset(Put(u, sorted, x)) == multiset(sorted) + multiset{x}
  {
    hide Less;
    if sorted != [] {
      assert sorted == sorted[..|sorted| - 1] + [sorted[|sorted| - 1]];
      PutBag(u, sorted[..|sorted| - 1], x);
    }
  }

  lemma {:induction false} PutRuns(u: Unicode, sorted: seq<string>, x: string, k: Text)
    ensures With(u, Put(u, sorted, x), k) == With(u, sorted, k) + if u.key(x) == k then [x] else []
  {
    hide Less;
    if sorted == [] {
      WithLast(u, [], x, k);
      assert [] + [x] == [x];
    } else {
      var front, last := sorted[..|sorted| - 1], sorted[|sorted| - 1];
      LessTotal(u.key(x), u.key(last));
      if Less(u.key(x), u.key(last)) {
        PutRuns(u, front, x, k);
        WithLast(u, Put(u, front, x), last, k);
      } else {
        WithLast(u, sorted, x, k);
      }
    }
  }

  lemma {:induction false} PutOrdered(u: Unicode, sorted: seq<string>, x: string)
    requires InOrder(u, sorted)
    ensures InOrder(u, Put(u, sorted, x))
  {
    hide Less;
    if sorted != [] {
      var front, last := sorted[..|sorted| - 1], sorted[|sorted| - 1];
      assert sorted == front + [last];
      if Less(u.key(x), u.key(last)) {
        PutOrdered(u, front, x);
        PutBag(u, front, x);
        PutLast(u, front, last, x);
      } else {
        EndOrdered(u, sorted, x);
      }
    }
  }

  lemma PutLast(u: Unicode, front: seq<string>, last: string, x: string)
    requires InOrder(u, front + [last]) && InOrder(u, Put(u, front, x)) && Less(u.key(x), u.key(last))
    requires multiset(Put(u, front, x)) == multiset(front) + multiset{x}
    ensures InOrder(u, Put(u, front, x) + [last])
  {
    hide Less, Put;
    var r := Put(u, front, x);
    LessTotal(u.key(x), u.key(last));
    assert (front + [last])[|front|] == last;
    forall i | 0 <= i < |r| ensures !Less(u.key(last), u.key(r[i])) {
      assert r[i] in multiset(front) + multiset{x};
      if r[i] != x {
        assert r[i] in front;
        var j :| 0 <= j < |front| && front[j] == r[i];
        assert (front + [last])[j] == r[i];
      }
    }
    forall i, j | 0 <= i < j < |r + [last]| ensures !Less(u.key((r + [last])[j]), u.key((r + [last])[i])) {
      if j < |r| { assert (r + [last])[j] == r[j] && (r + [last])[i] == r[i]; }
    }
  }

  lemma EndOrdered(u: Unicode, sorted: seq<string>, x: string)
    requires InOrder(u, sorted) && sorted != [] && !Less(u.key(x), u.key(sorted[|sorted| - 1]))
    ensures InOrder(u, sorted + [x])
  {
    hide Less;
    var last := sorted[|sorted| - 1];
    forall i | 0 <= i < |sorted| ensures !Less(u.key(x), u.key(sorted[i])) {
      if Less(u.key(x), u.key(sorted[i])) {
        NotBelow(u.key(x), u.key(sorted[i]), u.key(last));
      }
    }
  }

  // From x below y and y not above z: x is below z.
  lemma NotBelow(x: Text, y: Text, z: Text)
    requires Less(x, y) && !Less(z, y)
    ensures Less(x, z)
  {
    hide Less;
    LessTotal(y, z);
    if y != z { LessTransitive(x, y, z); }
  }

  // The sort orders by key, keeps every token, and keeps the order of those with
  // the same key.
  lemma {:induction false} StableSortSorts(u: Unicode, tokens: seq<string>)
    ensures InOrder(u, StableSort(u, tokens)) && SameRuns(u, StableSort(u, tokens), tokens)
    ensures multiset(StableSort(u, tokens)) == multiset(tokens)
  {
    if tokens != [] {
      var front, last := tokens[..|tokens| - 1], tokens[|tokens| - 1];
      StableSortSorts(u, front);
      hide InOrder, Put, With;
      PutOrdered(u, StableSort(u, front), last);
      PutBag(u, StableSort(u, front), last);
      assert tokens == front + [last];
      forall k ensures With(u, StableSort(u, tokens), k) == With(u, tokens, k) {
        PutRuns(u, StableSort(u, front), last, k);
        WithLast(u, front, last, k);
        assert With(u, StableSort(u, front), k) == With(u, front, k);
      }
    }
  }

  // Nothing else does: such an order is unique.
  lemma {:induction false} OneStableOrder(u: Unicode, a: seq<string>, b: seq<string>)
    requires InOrder(u, a) && InOrder(u, b) && SameRuns(u, a, b)
    ensures a == b
    decreases |a| + |b|
  {
    hide Less;
    if a == [] {
      if b != [] { SomeRun(u, b); }
    } else if b == [] {
      SomeRun(u, a);
    } else {
      var x, y, fa, fb := a[|a| - 1], b[|b| - 1], a[..|a| - 1], b[..|b| - 1];
      assert a == fa + [x] && b == fb + [y];
      LastHighest(u, a, b);
      LastHighest(u, b, a);
      LessTotal(u.key(x), u.key(y));
      forall k ensures With(u, fa, k) == With(u, fb, k) && (k == u.key(x) ==> x == y) {
        WithLast(u, fa, x, k);
        WithLast(u, fb, y, k);
        assert With(u, a, k) == With(u, b, k);
        if k == u.key(x) { LastOf(With(u, fa, k), With(u, fb, k), x, y); }
      }
      assert With(u, fa, u.key(x)) == With(u, fb, u.key(x));
      OneStableOrder(u, fa, fb);
    }
  }

  lemma SomeRun(u: Unicode, s: seq<string>)
    requires s != []
    ensures With(u, s, u.key(s[|s| - 1])) != []
  {
  }

  lemma LastOf(a: seq<string>, b: seq<string>, x: string, y: string)
    requires a + [x] == b + [y]
    ensures a == b && x == y
  {
    assert (a + [x])[..|a|] == a && (b + [y])[..|b|] == b;
    assert (a + [x])[|a|] == x && (b + [y])[|b|] == y;
  }

  lemma {:induction false} WithHas(u: Unicode, s: seq<string>, k: Text)
    ensures forall x <- With(u, s, k) :: x in s && u.key(x) == k
  {
    if s != [] { WithHas(u, s[..|s| - 1], k); }
  }

  // The last token of one is not above the last of the other.
  lemma LastHighest(u: Unicode, a: seq<string>, b: seq<string>)
    requires a != [] && b != [] && InOrder(u, b) && SameRuns(u, a, b)
    ensures !Less(u.key(b[|b| - 1]), u.key(a[|a| - 1]))
  {
    hide Less;
    var x := a[|a| - 1];
    assert x in With(u, a, u.key(x));
    WithHas(u, b, u.key(x));
    assert With(u, a, u.key(x)) == With(u, b, u.key(x));
    var j :| 0 <= j < |b| && b[j] == x;
    LessTotal(u.key(x), u.key(x));
  }

  /** What is kept. */

  ghost predicate NoRepeats(s: seq<string>) {
    forall i, j | 0 <= i < j < |s| :: !SameToken(s[i], s[j])
  }

  // No two kept tokens are the same, and every token is the same as a kept one.
  lemma {:induction false} KeptOnce(tokens: seq<string>)
    ensures NoRepeats(Kept(tokens))
    ensures forall t <- tokens :: Repeats(Kept(tokens), t)
  {
    hide Lower;
    if tokens != [] {
      var front := tokens[..|tokens| - 1];
      KeptOnce(front);
      hide SameToken;
      forall t <- tokens ensures Repeats(Kept(tokens), t) {
        if t in front {
          var e :| e in Kept(front) && SameToken(e, t);
          assert e in Kept(tokens);
        } else {
          assert t == tokens[|tokens| - 1];
          SameItself(t);
          assert Repeats(Kept(tokens), t) by { LastKept(tokens); }
        }
      }
    }
  }

  lemma SameItself(t: string)
    ensures SameToken(t, t)
  {
  }

  lemma LastKept(tokens: seq<string>)
    requires tokens != []
    ensures Repeats(Kept(tokens), tokens[|tokens| - 1])
  {
    hide Lower;
    var last := tokens[|tokens| - 1];
    if !Repeats(Kept(tokens[..|tokens| - 1]), last) {
      assert last in Kept(tokens);
    }
  }

  // A kept token is the first of its kind.
  lemma {:induction false} KeptFirst(tokens: seq<string>, e: string) returns (i: int)
    requires e in Kept(tokens)
    ensures IsFirstOf(tokens, e, i)
  {
    hide Lower;
    var front, last := tokens[..|tokens| - 1], tokens[|tokens| - 1];
    if e in Kept(front) {
      i := KeptFirst(front, e);
    } else {
      i := |front|;
      KeptOnce(front);
      forall j | 0 <= j < |front| ensures !SameToken(front[j], last) {
        assert front[j] in front;
        var w :| w in Kept(front) && SameToken(w, front[j]);
        assert !SameToken(w, last);
      }
    }
  }

  ghost predicate IsFirstOf(tokens: seq<string>, e: string, i: int) {
    0 <= i < |tokens| && tokens[i] == e && forall j | 0 <= j < i :: !SameToken(tokens[j], e)
  }

  // The kept tokens stand in the order of their first occurrences.
  lemma {:induction false} KeptInOrder(tokens: seq<string>, p: nat, q: nat, i: int, j: int)
    requires p < q < |Kept(tokens)|
    requires IsFirstOf(tokens, Kept(tokens)[p], i) && IsFirstOf(tokens, Kept(tokens)[q], j)
    ensures i < j
  {
    hide Lower;
    var front, kept := tokens[..|tokens| - 1], Kept(tokens);
    FirstInFront(tokens, kept[p], i);
    if kept[q] in Kept(front) {
      FirstInFront(tokens, kept[q], j);
      if q < |Kept(front)| { KeptInOrder(front, p, q, i, j); } else { LastIsNew(tokens); }
    } else {
      LastIsNew(tokens);
    }
  }

  // A token kept before the last one occurs first before the last one.
  lemma FirstInFront(tokens: seq<string>, e: string, i: int)
    requires tokens != [] && e in Kept(tokens[..|tokens| - 1]) && IsFirstOf(tokens, e, i)
    ensures i < |tokens| - 1 && IsFirstOf(tokens[..|tokens| - 1], e, i)
  {
    hide Lower;
    var front := tokens[..|tokens| - 1];
    var j := KeptFirst(front, e);
    SameItself(e);
    assert forall k | 0 <= k < |front| :: front[k] == tokens[k];
    assert j >= i;
  }

  // A token that is kept did not occur before.
  lemma LastIsNew(tokens: seq<string>)
    requires tokens != [] && |Kept(tokens)| > |Kept(tokens[..|tokens| - 1])|
    ensures var front := tokens[..|tokens| - 1];
      tokens[|tokens| - 1] !in Kept(front) && tokens[|tokens| - 1] !in front
  {
    hide Lower;
    KeptOnce(tokens[..|tokens| - 1]);
    SameItself(tokens[|tokens| - 1]);
  }

  lemma {:induction false} KeptAll(tokens: seq<string>)
    requires NoRepeats(tokens)
    ensures Kept(tokens) == tokens
  {
    hide Lower, SameToken;
    if tokens != [] {
      var front, last := tokens[..|tokens| - 1], tokens[|tokens| - 1];
      KeptAll(front);
      assert tokens == front + [last];
    }
  }

  /** Normalising. */

  // Two permutations repeat alike.
  lemma RepeatsPermuted(a: seq<string>, b: seq<string>)
    requires multiset(a) == multiset(b) && NoRepeats(a)
    ensures NoRepeats(b)
  {
    hide Lower;
    forall i, j | 0 <= i < j < |b| ensures !SameToken(b[i], b[j]) {
      if b[i] == b[j] {
        TwiceThere(b, i, j);
        OnceThere(a, b[i]);
      } else {
        assert b[i] in multiset(a) && b[j] in multiset(a);
        var p :| 0 <= p < |a| && a[p] == b[i];
        var q :| 0 <= q < |a| && a[q] == b[j];
        assert p < q || q < p;
      }
    }
  }

  lemma TwiceThere(s: seq<string>, i: nat, j: nat)
    requires i < j < |s| && s[i] == s[j]
    ensures multiset(s)[s[i]] >= 2
  {
    assert s == s[..j] + s[j..];
    assert s[i] in s[..j] && s[j] in s[j..] by { assert s[..j][i] == s[i] && s[j..][0] == s[j]; }
  }

  lemma {:induction false} OnceThere(s: seq<string>, x: string)
    requires NoRepeats(s)
    ensures multiset(s)[x] <= 1
  {
    if s != [] {
      var front, last := s[..|s| - 1], s[|s| - 1];
      assert s == front + [last];
      OnceThere(front, x);
      forall i | 0 <= i < |front| ensures front[i] != last {
        assert !SameToken(s[i], s[|s| - 1]);
      }
    }
  }

  // The token is what trimming makes of a value, and of none before it, apart
  // from ASCII case.
  ghost predicate FirstTrim(u: Unicode, values: seq<string>, x: string, i: int) {
    && 0 <= i < |values| && u.trim(values[i]) == x
    && forall j | 0 <= j < i :: !SameToken(u.trim(values[j]), x)
  }

  lemma FirstOfTrimmed(u: Unicode, values: seq<string>, x: string, i: int)
    requires IsFirstOf(Trimmed(u, values), x, i)
    ensures FirstTrim(u, values, x, i)
  {
    hide SameToken;
    forall j | 0 <= j < i ensures !SameToken(u.trim(values[j]), x) {
      assert Trimmed(u, values)[j] == u.trim(values[j]);
    }
  }

  // Every token of the result is the first of its kind among the trimmed values,
  // and every trimmed value is there, apart from ASCII case.
  lemma NormalizedTrims(u: Unicode, values: seq<string>)
    ensures forall x <- Normalized(u, values) :: exists i :: FirstTrim(u, values, x, i)
    ensures forall i | 0 <= i < |values| :: Repeats(Normalized(u, values), u.trim(values[i]))
  {
    hide SameToken, StableSort, Kept, FirstTrim;
    var tokens, r := Trimmed(u, values), Normalized(u, values);
    assert forall i | 0 <= i < |values| :: tokens[i] == u.trim(values[i]) && tokens[i] in tokens;
    KeptOnce(tokens);
    StableSortSorts(u, Kept(tokens));
    forall x <- r ensures exists i :: FirstTrim(u, values, x, i) {
      assert x in multiset(Kept(tokens));
      var i := KeptFirst(tokens, x);
      FirstOfTrimmed(u, values, x, i);
    }
    forall i | 0 <= i < |values| ensures Repeats(r, u.trim(values[i])) {
      assert tokens[i] in tokens;
      assert Repeats(Kept(tokens), tokens[i]);
      var x :| x in Kept(tokens) && SameToken(x, tokens[i]);
      assert x in multiset(Kept(tokens));
    }
  }

  // The result is a permutation of the first trimmed tokens of their kind, in
  // stable order, and normalising it again changes nothing.
  lemma NormalizedMeans(u: Unicode, values: seq<string>)
    requires Trims(u)
    ensures var r := Normalized(u, values);
      && NoRepeats(r) && InOrder(u, r) && SameRuns(u, r, Kept(Trimmed(u, values)))
      && multiset(r) == multiset(Kept(Trimmed(u, values)))
      && Normalized(u, r) == r
  {
    hide Lower, Less, StableSort, Put, With, NoRepeats, InOrder;
    var tokens := Trimmed(u, values);
    var r := Normalized(u, values);
    KeptOnce(tokens);
    StableSortSorts(u, Kept(tokens));
    RepeatsPermuted(Kept(tokens), r);
    forall i | 0 <= i < |r| ensures u.trim(r[i]) == r[i] {
      assert r[i] in multiset(Kept(tokens));
      assert r[i] in Kept(tokens);
      var j := KeptFirst(tokens, r[i]);
      assert tokens[j] == u.trim(values[j]);
    }
    assert Trimmed(u, r) == r;
    KeptAll(r);
    StableSortSorts(u, r);
    OneStableOrder(u, StableSort(u, r), r);
  }

  lemma KeptNext(tokens: seq<string>, i: nat)
    requires i < |tokens|
    ensures Kept(tokens[..i + 1]) == if Repeats(Kept(tokens[..i]), tokens[i]) then Kept(tokens[..i]) else Kept(tokens[..i]) + [tokens[i]]
  {
    hide Repeats;
    assert tokens[..i + 1][..i] == tokens[..i];
  }

  lemma KeptNone()
    ensures Kept([]) == []
  {
  }

  method NormalizeTokens(u: Unicode, values: seq<string>) returns (r: Option<seq<string>>)
    ensures r.None? <==> |values| > 64 || exists i :: 0 <= i < |values| && Unfit(u.trim(values[i]))
    ensures r.Some? ==> r.value == Normalized(u, values)
  {
    hide StableSort, Kept, SameToken;
    ghost var tokens := Trimmed(u, values);
    if |values| > MAX_ASSET_TOKENS {
      return None;
    }
    KeptNone();
    var normalized: seq<string> := [];
    for i := 0 to |values|
      invariant normalized == Kept(tokens[..i])
      invariant forall j | 0 <= j < i :: !Unfit(u.trim(values[j]))
    {
      var value := u.trim(values[i]);
      assert value == tokens[i] && tokens[i] in tokens;
      if !Acceptable(value) {
        return None;
      }
      KeptNext(tokens, i);
      if !Repeats(normalized, value) {
        normalized := normalized + [value];
      }
    }
    assert tokens[..|tokens|] == tokens;
    return Some(StableSort(u, normalized));
  }
}
