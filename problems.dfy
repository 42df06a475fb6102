/**
 * How the validators accumulate problems: each check returns its list of
 * problems or the exception Python raises, and `problems.extend(check(...))`
 * in a row or in a loop stops at the first exception.
 */
module Problems {
  import opened Wrappers
  import opened Json

  /** Two checks in a row: the first exception stops, otherwise their problems in order. */
  function Then<T>(a: Result<seq<T>>, b: Result<seq<T>>): (r: Result<seq<T>>)
    ensures r.Ok? <==> a.Ok? && b.Ok?
    ensures r.Ok? ==> r.value == a.value + b.value
    ensures a.Raise? ==> r == a
    ensures a.Ok? && b.Raise? ==> r == b
  {
    if a.Raise? then a else if b.Raise? then b else Ok(a.value + b.value)
  }

  /** Membership in the problems of two checks in a row. */
  lemma InThen<T>(a: Result<seq<T>>, b: Result<seq<T>>, x: T)
    requires a.Ok? && b.Ok?
    ensures Then(a, b).Ok? && (x in Then(a, b).value <==> x in a.value || x in b.value)
  {
  }

  /** Membership in five checks run one after another. */
  lemma InThen5<T>(a: Result<seq<T>>, b: Result<seq<T>>, c: Result<seq<T>>, d: Result<seq<T>>, e: Result<seq<T>>, x: T)
    requires a.Ok? && b.Ok? && c.Ok? && d.Ok? && e.Ok?
    ensures Then(a, Then(b, Then(c, Then(d, e)))).Ok?
    ensures x in Then(a, Then(b, Then(c, Then(d, e)))).value <==>
      x in a.value || x in b.value || x in c.value || x in d.value || x in e.value
  {
    InThen(d, e, x);
    InThen(c, Then(d, e), x);
    InThen(b, Then(c, Then(d, e)), x);
    InThen(a, Then(b, Then(c, Then(d, e))), x);
  }

  lemma InitLast<T>(s: seq<T>)
    requires s != []
    ensures s[..|s| - 1] + [s[|s| - 1]] == s
  {
  }

  lemma ConcatAssoc<T>(a: seq<T>, b: seq<T>, c: seq<T>)
    ensures a + b + c == a + (b + c)
  {
  }

  /** `problems.extend(...)` over a list of check results: the first exception stops, otherwise all problems in order. */
  function Collect<T>(rs: seq<Result<seq<T>>>): Result<seq<T>>
    decreases |rs|
  {
    if rs == [] then Ok([])
    else Then(Collect(rs[..|rs| - 1]), rs[|rs| - 1])
  }

  /** Once a prefix raises, the whole collection raises the same way. */
  lemma {:induction false} CollectStop<T>(rs: seq<Result<seq<T>>>, j: nat)
    requires j <= |rs| && Collect(rs[..j]).Raise?
    ensures Collect(rs) == Collect(rs[..j])
    decreases |rs|
  {
    if j < |rs| {
      var front := rs[..|rs| - 1];
      assert front[..j] == rs[..j];
      CollectStop(front, j);
    } else {
      assert rs[..j] == rs;
    }
  }

  /** The collection succeeds exactly when every check does; otherwise it raises what one of them raises. */
  lemma {:induction false} CollectOk<T>(rs: seq<Result<seq<T>>>)
    ensures Collect(rs).Ok? <==> forall i :: 0 <= i < |rs| ==> rs[i].Ok?
    ensures Collect(rs).Raise? ==> exists i :: 0 <= i < |rs| && rs[i] == Collect(rs)
    decreases |rs|
  {
    if rs != [] {
      var front := rs[..|rs| - 1];
      CollectOk(front);
      assert forall i :: 0 <= i < |front| ==> front[i] == rs[i];
      if Collect(front).Raise? {
        var i :| 0 <= i < |front| && front[i] == Collect(front);
        assert rs[i] == Collect(rs);
      }
    }
  }

  /** A problem is collected exactly when one of the checks reports it. */
  lemma {:induction false} CollectMember<T>(rs: seq<Result<seq<T>>>, x: T)
    requires Collect(rs).Ok?
    ensures x in Collect(rs).value <==> exists i :: 0 <= i < |rs| && rs[i].Ok? && x in rs[i].value
    decreases |rs|
  {
    if rs != [] {
      var front := rs[..|rs| - 1];
      CollectMember(front, x);
      assert forall i :: 0 <= i < |front| ==> front[i] == rs[i];
      InThen(Collect(front), rs[|rs| - 1], x);
    }
  }

  /** Checks that each yield exactly one entry collect to one entry per check, in order. */
  lemma {:induction false} CollectSingles<T>(rs: seq<Result<seq<T>>>)
    requires forall i :: 0 <= i < |rs| ==> rs[i].Ok? && |rs[i].value| == 1
    ensures Collect(rs).Ok? && |Collect(rs).value| == |rs|
    ensures forall i :: 0 <= i < |rs| ==> Collect(rs).value[i] == rs[i].value[0]
    decreases |rs|
  {
    if rs != [] {
      var front := rs[..|rs| - 1];
      assert forall i :: 0 <= i < |front| ==> front[i] == rs[i];
      CollectSingles(front);
    }
  }

  /** A check run over a list, item k checked with its position k, from 1. */
  function Checks<T>(items: seq<JsonValue>, check: (JsonValue, int) -> Result<seq<T>>): (rs: seq<Result<seq<T>>>)
    ensures |rs| == |items|
    ensures forall i :: 0 <= i < |items| ==> rs[i] == check(items[i], i + 1)
  {
    seq(|items|, i requires 0 <= i < |items| => check(items[i], i + 1))
  }

  /** `for i, item in enumerate(items, 1): problems.extend(check(item, i))`, an exception ending the loop. */
  method ExtendAll<T>(items: seq<JsonValue>, check: (JsonValue, int) -> Result<seq<T>>) returns (r: Result<seq<T>>)
    ensures r == Collect(Checks(items, check))
  {
    ghost var rs := Checks(items, check);
    var problems: seq<T> := [];
    for i := 0 to |items|
      invariant Collect(rs[..i]) == Ok(problems)
    {
      assert rs[..i + 1][..i] == rs[..i];
      var c := check(items[i], i + 1);
      if c.Raise? {
        CollectStop(rs, i + 1);
        return c;
      }
      problems := problems + c.value;
    }
    assert rs[..|items|] == rs;
    return Ok(problems);
  }
}
