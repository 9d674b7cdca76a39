/** Fanning a search out to several backends and merging what comes back
    (material/multi.go, `SearchMulti`). */
module MultiSearch {
  import opened Common

  type Item = string

  /** A backend's answer; `source` is the name it gives itself there, or empty. */
  datatype Result = Result(source: string, items: seq<Item>, total: int, nextToken: string)

  /** What one backend goroutine works on: the name the backend describes itself by (empty if
      it does not), and a result or an error. */
  datatype Sent = Sent(described: string, failed: bool, error: string, result: Result)

  /** The name sent along: the one in the result, or else the described one. */
  function SourceOf(o: Sent): string {
    if o.result.source == "" then o.described else o.result.source
  }

  datatype BackendError = BackendError(source: string, error: string)

  // ---------- the meaning of a merge ----------

  /** What one outcome contributes. */
  function ItemsOf(o: Sent): seq<Item> {
    if o.failed then [] else o.result.items
  }

  function TotalOf(o: Sent): int {
    if o.failed then 0 else o.result.total
  }

  function ErrorsOf(o: Sent): seq<BackendError> {
    if o.failed then [BackendError(SourceOf(o), o.error)] else []
  }

  function Items(all: seq<Sent>): seq<Item> {
    if all == [] then [] else Items(all[..|all| - 1]) + ItemsOf(all[|all| - 1])
  }

  function Total(all: seq<Sent>): int {
    if all == [] then 0 else Total(all[..|all| - 1]) + TotalOf(all[|all| - 1])
  }

  function Errors(all: seq<Sent>): seq<BackendError> {
    if all == [] then [] else Errors(all[..|all| - 1]) + ErrorsOf(all[|all| - 1])
  }

  predicate HasCursor(o: Sent) {
    !o.failed && o.result.nextToken != ""
  }

  function NextState(all: seq<Sent>): map<string, string> {
    if all == [] then map[]
    else
      var o := all[|all| - 1];
      var m := NextState(all[..|all| - 1]);
      if HasCursor(o) then m[SourceOf(o) := o.result.nextToken] else m
  }

  // ---------- the collecting loop ----------

  datatype Merged = Merged(items: seq<Item>, total: int, errors: seq<BackendError>, next: map<string, string>)

  /** The loop over the channel and the truncation after it: the first items are left, as many
      as asked for. */
  method Collect(arrivals: seq<Sent>, maxResults: int) returns (m: Merged)
    ensures m.items <= Items(arrivals)
    ensures |m.items| == if maxResults > 0 then Min(maxResults, |Items(arrivals)|) else |Items(arrivals)|
    ensures m.total == Total(arrivals) && m.errors == Errors(arrivals) && m.next == NextState(arrivals)
  {
    var items, total, errors, next := [], 0, [], map[];
    for i := 0 to |arrivals|
      invariant items == Items(arrivals[..i]) && total == Total(arrivals[..i])
      invariant errors == Errors(arrivals[..i]) && next == NextState(arrivals[..i])
    {
      var o := arrivals[i];
      assert arrivals[..i + 1][..i] == arrivals[..i];
      if o.failed {
        errors := errors + [BackendError(SourceOf(o), o.error)];
        continue;
      }
      items := items + o.result.items;
      total := total + o.result.total;
      if o.result.nextToken != "" {
        next := next[SourceOf(o) := o.result.nextToken];
      }
    }
    assert arrivals[..|arrivals|] == arrivals;
    if maxResults > 0 && |items| > maxResults {
      items := items[..maxResults];
    }
    m := Merged(items, total, errors, next);
  }

  // ---------- under which name a failure is reported ----------

  /** The error a failed backend leaves: under the name its result has, or, where that is
      empty, under the one it describes itself by. */
  ghost predicate Reports(o: Sent, e: BackendError) {
    && o.failed && e.error == o.error
    && (o.result.source != "" ==> e.source == o.result.source)
    && (o.result.source == "" ==> e.source == o.described)
  }

  /** The errors are those of the failed backends at these places, in order of arrival. */
  ghost predicate ReportsAll(all: seq<Sent>, errors: seq<BackendError>, places: seq<nat>) {
    && |places| == |errors|
    && (forall i, j :: 0 <= i < j < |places| ==> places[i] < places[j])
    && (forall i :: 0 <= i < |places| ==> places[i] < |all| && Reports(all[places[i]], errors[i]))
    && (forall k: nat :: k < |all| && all[k].failed ==> k in places)
  }

  lemma {:induction false} ReportsNext(all: seq<Sent>, errors: seq<BackendError>, places: seq<nat>, n: nat, e: BackendError)
    requires n == |all| - 1 && ReportsAll(all[..n], errors, places)
    ensures all[n].failed && Reports(all[n], e) ==> ReportsAll(all, errors + [e], places + [n])
    ensures !all[n].failed ==> ReportsAll(all, errors, places)
  {
    forall k: nat | k < n && all[k].failed
      ensures k in places
    {
      assert all[..n][k] == all[k];
    }
    forall i | 0 <= i < |places|
      ensures Reports(all[places[i]], errors[i])
    {
      assert all[..n][places[i]] == all[places[i]];
    }
    assert n in places + [n];
  }

  /** Exactly the failed backends are reported, each under that name. */
  lemma {:induction false} ErrorsNamed(all: seq<Sent>) returns (places: seq<nat>)
    ensures ReportsAll(all, Errors(all), places)
  {
    places := [];
    if all != [] {
      var n := |all| - 1;
      places := ErrorsNamed(all[..n]);
      ReportsNext(all, Errors(all[..n]), places, n, BackendError(SourceOf(all[n]), all[n].error));
      if all[n].failed {
        places := places + [n];
      } else {
        assert Errors(all) == Errors(all[..n]);
      }
    }
  }

  // ---------- independence of the order of arrival ----------

  lemma {:induction false} ItemsAppend(a: seq<Sent>, o: Sent)
    ensures Items(a + [o]) == Items(a) + ItemsOf(o)
  {
    assert (a + [o])[..|a|] == a;
  }

  lemma {:induction false} ItemsSplitStep(a: seq<Sent>, b: seq<Sent>, o: Sent)
    requires Items(a + b) == Items(a) + Items(b)
    ensures Items(a + (b + [o])) == Items(a) + Items(b + [o])
  {
    Associative(a, b, [o]);
    ItemsAppend(a + b, o);
    ItemsAppend(b, o);
    Associative(Items(a), Items(b), ItemsOf(o));
  }

  lemma {:induction false} ItemsSplit(a: seq<Sent>, b: seq<Sent>)
    ensures Items(a + b) == Items(a) + Items(b)
    decreases |b|
  {
    if b == [] {
      assert a + b == a;
    } else {
      var front, o := b[..|b| - 1], b[|b| - 1];
      assert b == front + [o];
      ItemsSplit(a, front);
      ItemsSplitStep(a, front, o);
    }
  }

  lemma {:induction false} TotalAppend(a: seq<Sent>, o: Sent)
    ensures Total(a + [o]) == Total(a) + TotalOf(o)
  {
    assert (a + [o])[..|a|] == a;
  }

  lemma {:induction false} TotalSplitStep(a: seq<Sent>, b: seq<Sent>, o: Sent)
    requires Total(a + b) == Total(a) + Total(b)
    ensures Total(a + (b + [o])) == Total(a) + Total(b + [o])
  {
    Associative(a, b, [o]);
    TotalAppend(a + b, o);
    TotalAppend(b, o);
  }

  lemma {:induction false} TotalSplit(a: seq<Sent>, b: seq<Sent>)
    ensures Total(a + b) == Total(a) + Total(b)
    decreases |b|
  {
    if b == [] {
      assert a + b == a;
    } else {
      var front, o := b[..|b| - 1], b[|b| - 1];
      assert b == front + [o];
      TotalSplit(a, front);
      TotalSplitStep(a, front, o);
    }
  }

  lemma {:induction false} ErrorsAppend(a: seq<Sent>, o: Sent)
    ensures Errors(a + [o]) == Errors(a) + ErrorsOf(o)
  {
    assert (a + [o])[..|a|] == a;
  }

  lemma {:induction false} ErrorsSplitStep(a: seq<Sent>, b: seq<Sent>, o: Sent)
    requires Errors(a + b) == Errors(a) + Errors(b)
    ensures Errors(a + (b + [o])) == Errors(a) + Errors(b + [o])
  {
    Associative(a, b, [o]);
    ErrorsAppend(a + b, o);
    ErrorsAppend(b, o);
    Associative(Errors(a), Errors(b), ErrorsOf(o));
  }

  lemma {:induction false} ErrorsSplit(a: seq<Sent>, b: seq<Sent>)
    ensures Errors(a + b) == Errors(a) + Errors(b)
    decreases |b|
  {
    if b == [] {
      assert a + b == a;
    } else {
      var front, o := b[..|b| - 1], b[|b| - 1];
      assert b == front + [o];
      ErrorsSplit(a, front);
      ErrorsSplitStep(a, front, o);
    }
  }

  lemma {:induction false} MergeOne(o: Sent)
    ensures Items([o]) == ItemsOf(o) && Total([o]) == TotalOf(o) && Errors([o]) == ErrorsOf(o)
  {
    assert [o][..0] == [];
  }

  lemma {:induction false} SplitAt(s: seq<Sent>, i: nat)
    requires i < |s|
    ensures s == (s[..i] + [s[i]]) + s[i + 1..]
  {
  }

  lemma {:induction false} ItemsWithout(x: seq<Sent>, o: Sent, z: seq<Sent>)
    ensures Items((x + [o]) + z) == Items(x) + ItemsOf(o) + Items(z)
    ensures Items(x + z) == Items(x) + Items(z)
  {
    MergeOne(o);
    ItemsSplit(x + [o], z);
    ItemsSplit(x, [o]);
    ItemsSplit(x, z);
  }

  lemma {:induction false} TotalWithout(x: seq<Sent>, o: Sent, z: seq<Sent>)
    ensures Total((x + [o]) + z) == Total(x + z) + TotalOf(o)
  {
    MergeOne(o);
    TotalSplit(x + [o], z);
    TotalSplit(x, [o]);
    TotalSplit(x, z);
  }

  lemma {:induction false} ErrorsWithout(x: seq<Sent>, o: Sent, z: seq<Sent>)
    ensures Errors((x + [o]) + z) == Errors(x) + ErrorsOf(o) + Errors(z)
    ensures Errors(x + z) == Errors(x) + Errors(z)
  {
    MergeOne(o);
    ErrorsSplit(x + [o], z);
    ErrorsSplit(x, [o]);
    ErrorsSplit(x, z);
  }

  /** Taking one element out takes its own contribution out. */
  lemma {:induction false} MergeWithout(s: seq<Sent>, i: nat)
    requires i < |s|
    ensures multiset(Items(s)) == multiset(Items(Without(s, i))) + multiset(ItemsOf(s[i]))
    ensures Total(s) == Total(Without(s, i)) + TotalOf(s[i])
    ensures multiset(Errors(s)) == multiset(Errors(Without(s, i))) + multiset(ErrorsOf(s[i]))
  {
    SplitAt(s, i);
    ItemsWithout(s[..i], s[i], s[i + 1..]);
    TotalWithout(s[..i], s[i], s[i + 1..]);
    ErrorsWithout(s[..i], s[i], s[i + 1..]);
  }

  /** Items (as a bag, before truncation), total and errors do not depend on the order in
      which the backends answer. */
  lemma {:induction false} OrderDoesNotMatter(a: seq<Sent>, b: seq<Sent>)
    requires multiset(a) == multiset(b)
    ensures multiset(Items(a)) == multiset(Items(b))
    ensures Total(a) == Total(b)
    ensures multiset(Errors(a)) == multiset(Errors(b))
    decreases |a|
  {
    if a == [] {
      assert |b| == |multiset(b)| == 0;
    } else {
      var j := SameBag(a, b);
      MergeWithout(a, 0);
      MergeWithout(b, j);
      OrderDoesNotMatter(Without(a, 0), Without(b, j));
    }
  }

  // ---------- cursors ----------

  /** Successful backends with a cursor that share a source agree on the cursor. */
  ghost predicate CursorsAgree(all: seq<Sent>) {
    forall o, p :: o in all && p in all && HasCursor(o) && HasCursor(p) && SourceOf(o) == SourceOf(p) ==>
      o.result.nextToken == p.result.nextToken
  }

  /** Every cursor in the next state was sent by a backend of that source, and every
      backend's source has one. */
  lemma {:induction false} NextStateMembers(all: seq<Sent>)
    ensures forall s :: s in NextState(all) ==>
              exists o :: o in all && HasCursor(o) && SourceOf(o) == s && o.result.nextToken == NextState(all)[s]
    ensures forall o :: o in all && HasCursor(o) ==> SourceOf(o) in NextState(all)
  {
    if all != [] {
      var n := |all| - 1;
      NextStateMembers(all[..n]);
      assert all == all[..n] + [all[n]];
      forall s | s in NextState(all)
        ensures exists o :: o in all && HasCursor(o) && SourceOf(o) == s && o.result.nextToken == NextState(all)[s]
      {
        if HasCursor(all[n]) && SourceOf(all[n]) == s {
          assert all[n] in all;
        } else {
          var o :| o in all[..n] && HasCursor(o) && SourceOf(o) == s && o.result.nextToken == NextState(all[..n])[s];
          assert o in all;
        }
      }
    }
  }

  /** With agreeing cursors the next page's state is the same whatever the order. */
  lemma {:induction false} SameNextState(a: seq<Sent>, b: seq<Sent>)
    requires multiset(a) == multiset(b) && CursorsAgree(a)
    ensures NextState(a) == NextState(b)
  {
    NextStateMembers(a);
    NextStateMembers(b);
    forall o
      ensures o in a <==> o in b
    {
      assert o in a <==> o in multiset(a);
      assert o in b <==> o in multiset(b);
    }
    forall s
      ensures s in NextState(a) <==> s in NextState(b)
      ensures s in NextState(a) ==> NextState(a)[s] == NextState(b)[s]
    {
      if s in NextState(a) {
        var o :| o in a && HasCursor(o) && SourceOf(o) == s && o.result.nextToken == NextState(a)[s];
        assert o in b && s in NextState(b);
      }
      if s in NextState(b) {
        var o :| o in b && HasCursor(o) && SourceOf(o) == s && o.result.nextToken == NextState(b)[s];
        assert o in a && s in NextState(a);
        var p :| p in a && HasCursor(p) && SourceOf(p) == s && p.result.nextToken == NextState(a)[s];
      }
    }
  }

  /** Moving one element to the end lets its cursor win. */
  lemma {:induction false} LastCursorWins(all: seq<Sent>, i: nat)
    requires i < |all| && HasCursor(all[i])
    ensures var b := Without(all, i) + [all[i]];
            multiset(b) == multiset(all)
            && SourceOf(all[i]) in NextState(b) && NextState(b)[SourceOf(all[i])] == all[i].result.nextToken
  {
    WithoutBag(all, i);
    var b := Without(all, i) + [all[i]];
    assert b[..|b| - 1] == Without(all, i);
  }

  /** The next state is independent of the order of arrival exactly when the cursors agree;
      in particular whenever the sources are distinct. */
  lemma {:induction false} NextStateStableIff(all: seq<Sent>)
    ensures CursorsAgree(all) <==> forall b :: multiset(b) == multiset(all) ==> NextState(b) == NextState(all)
  {
    if CursorsAgree(all) {
      forall b | multiset(b) == multiset(all)
        ensures NextState(b) == NextState(all)
      {
        SameNextState(all, b);
      }
    } else {
      var o, p :| o in all && p in all && HasCursor(o) && HasCursor(p) && SourceOf(o) == SourceOf(p)
                && o.result.nextToken != p.result.nextToken;
      var i :| 0 <= i < |all| && all[i] == o;
      var j :| 0 <= j < |all| && all[j] == p;
      LastCursorWins(all, i);
      LastCursorWins(all, j);
      var b, c := Without(all, i) + [o], Without(all, j) + [p];
      assert NextState(b) != NextState(c);
      assert multiset(b) == multiset(all) && multiset(c) == multiset(all);
    }
  }

  // ---------- pages ----------

  /** The token a backend receives with the next request, given what the composite token
      decodes to (`None` when it is empty or malformed): looked up by its described name. */
  function BackendToken(composite: string, state: Option<map<string, string>>, described: string): string {
    if described != "" && state.Some? && described in state.value then state.value[described] else composite
  }

  /** What a backend receives with the next page, when the composite token decodes to what was
      encoded: the cursor stored under its described name, whoever stored it; or, if there is
      none, the composite token itself. */
  lemma {:induction false} TokenReceived(all: seq<Sent>, composite: string, described: string, p: Sent)
    requires CursorsAgree(all)
    ensures p in all && HasCursor(p) && SourceOf(p) == described != "" ==>
              BackendToken(composite, Some(NextState(all)), described) == p.result.nextToken
    ensures described == "" || (forall q :: q in all && HasCursor(q) ==> SourceOf(q) != described) ==>
              BackendToken(composite, Some(NextState(all)), described) == composite
  {
    NextStateMembers(all);
  }

  /** No other source holds this backend's cursor, nor does the composite token equal it. */
  ghost predicate OwnCursor(all: seq<Sent>, composite: string, o: Sent) {
    && HasCursor(o) && composite != o.result.nextToken
    && forall p :: p in all && HasCursor(p) && SourceOf(p) != SourceOf(o) ==> p.result.nextToken != o.result.nextToken
  }

  /** A backend gets its cursor back with the next page if and only if it describes itself,
      and its results name no source or the same one. */
  lemma {:induction false} CursorsComeBack(all: seq<Sent>, composite: string, o: Sent)
    requires CursorsAgree(all) && o in all && OwnCursor(all, composite, o)
    ensures BackendToken(composite, Some(NextState(all)), o.described) == o.result.nextToken
       <==> o.described != "" && (o.result.source == "" || o.result.source == o.described)
  {
    TokenReceived(all, composite, o.described, o);
    NextStateMembers(all);
  }

  /** So it does not for a backend whose results name another source, or that names one
      without describing itself. */
  lemma {:induction false} RenamedLosesCursor(all: seq<Sent>, composite: string, o: Sent)
    requires CursorsAgree(all) && o in all && OwnCursor(all, composite, o)
    requires o.result.source != "" && o.result.source != o.described
    ensures BackendToken(composite, Some(NextState(all)), o.described) != o.result.nextToken
  {
    CursorsComeBack(all, composite, o);
  }
}
