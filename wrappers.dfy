/** Option and Result values standing for Python's `None` and raised
    exceptions, the left-to-right "first failure wins" combination of a
    sequence of results, and element-wise mapping of a sequence. */
module Wrappers {

  datatype Option<+T> = None | Some(value: T)

  datatype Result<+T, +E> = Ok(value: T) | Err(error: E)

  /** Runs the results left to right and stops at the first error, as a
      Python loop that raises on the first bad element does. */
  function Collect<T, E>(rs: seq<Result<T, E>>): (r: Result<seq<T>, E>)
    ensures r.Ok? ==> |r.value| == |rs|
    decreases |rs|
  {
    if rs == [] then Ok([])
    else
      match Collect(rs[..|rs| - 1])
      case Err(e) => Err(e)
      case Ok(vs) =>
        match rs[|rs| - 1]
        case Err(e) => Err(e)
        case Ok(v) => Ok(vs + [v])
  }

  /** One more result at the end: Collect's own step, as a lemma for loops. */
  lemma CollectSnoc<T, E>(rs: seq<Result<T, E>>, r: Result<T, E>)
    ensures Collect(rs + [r]) ==
              if Collect(rs).Err? then Collect(rs)
              else if r.Err? then Err(r.error)
              else Ok(Collect(rs).value + [r.value])
  {
    assert (rs + [r])[..|rs|] == rs;
  }

  /** Collect succeeds exactly when every element does, and then it keeps
      every value in place. */
  lemma {:induction false} CollectOk<T, E>(rs: seq<Result<T, E>>)
    ensures Collect(rs).Ok? <==> forall i :: 0 <= i < |rs| ==> rs[i].Ok?
    ensures Collect(rs).Ok? ==>
              forall i :: 0 <= i < |rs| ==> Collect(rs).value[i] == rs[i].value
    decreases |rs|
  {
    if rs != [] {
      var init := rs[..|rs| - 1];
      CollectOk(init);
      assert forall i :: 0 <= i < |init| ==> init[i] == rs[i];
    }
  }

  /** The error Collect reports is the one of the first failing element. */
  lemma {:induction false} CollectErr<T, E>(rs: seq<Result<T, E>>)
    requires Collect(rs).Err?
    ensures exists i :: 0 <= i < |rs| && rs[i] == Err(Collect(rs).error) &&
                        forall k :: 0 <= k < i ==> rs[k].Ok?
    decreases |rs|
  {
    var init := rs[..|rs| - 1];
    assert forall i :: 0 <= i < |init| ==> init[i] == rs[i];
    if Collect(init).Err? {
      CollectErr(init);
      var i :| 0 <= i < |init| && init[i] == Err(Collect(init).error) &&
               forall k :: 0 <= k < i ==> init[k].Ok?;
      assert rs[i] == Err(Collect(rs).error);
    } else {
      CollectOk(init);
      assert rs[|rs| - 1] == Err(Collect(rs).error);
    }
  }

  /** Once a prefix has failed, the rest of the sequence is never looked at. */
  lemma {:induction false} CollectErrPrefix<T, E>(rs: seq<Result<T, E>>, more: seq<Result<T, E>>)
    requires Collect(rs).Err?
    ensures Collect(rs + more) == Collect(rs)
    decreases |more|
  {
    if more == [] {
      assert rs + more == rs;
    } else {
      var init := more[..|more| - 1];
      CollectErrPrefix(rs, init);
      assert rs + more == (rs + init) + [more[|more| - 1]];
      CollectSnoc(rs + init, more[|more| - 1]);
    }
  }

  /** The first failing element decides the result, whatever follows it. */
  lemma CollectFailsAt<T, E>(done: seq<Result<T, E>>, r: Result<T, E>, more: seq<Result<T, E>>)
    requires Collect(done).Ok? && r.Err?
    ensures Collect(done + [r] + more) == Err(r.error)
  {
    CollectSnoc(done, r);
    CollectErrPrefix(done + [r], more);
  }

  /** `[f(x) for x in xs]` */
  function Map<A, B>(f: A -> B, xs: seq<A>): (ys: seq<B>)
    ensures |ys| == |xs| && forall i :: 0 <= i < |xs| ==> ys[i] == f(xs[i])
  {
    seq(|xs|, i requires 0 <= i < |xs| => f(xs[i]))
  }

  lemma MapAppend<A, B>(f: A -> B, xs: seq<A>, ys: seq<A>)
    ensures Map(f, xs + ys) == Map(f, xs) + Map(f, ys)
  {
  }

  lemma MapSnoc<A, B>(f: A -> B, xs: seq<A>, x: A)
    ensures Map(f, xs + [x]) == Map(f, xs) + [f(x)]
  {
  }

  /** `s[..i + 1]` is `s[..i]` and one more element. */
  lemma TakeSnoc<T>(s: seq<T>, i: nat)
    requires i < |s|
    ensures s[..i + 1] == s[..i] + [s[i]]
  {
  }

  /** `s` around its element at `i`. */
  lemma Around<T>(s: seq<T>, i: nat)
    requires i < |s|
    ensures s == s[..i] + [s[i]] + s[i + 1..]
  {
  }

  /** `[x for x in xs if f(x)]` */
  function Filter<T>(f: T -> bool, xs: seq<T>): (ys: seq<T>)
    ensures |ys| <= |xs|
    ensures forall i :: 0 <= i < |ys| ==> f(ys[i])
    decreases |xs|
  {
    if xs == [] then [] else (if f(xs[0]) then [xs[0]] else []) + Filter(f, xs[1..])
  }

  /** Filter keeps exactly the elements that pass, with their multiplicity. */
  lemma {:induction false} FilterMultiset<T>(f: T -> bool, xs: seq<T>)
    ensures forall x :: multiset(Filter(f, xs))[x] == if f(x) then multiset(xs)[x] else 0
    decreases |xs|
  {
    if xs != [] {
      FilterMultiset(f, xs[1..]);
      assert xs == [xs[0]] + xs[1..];
    }
  }

  lemma FilterIn<T>(f: T -> bool, xs: seq<T>, x: T)
    ensures x in Filter(f, xs) <==> x in xs && f(x)
  {
    FilterMultiset(f, xs);
    assert x in Filter(f, xs) <==> multiset(Filter(f, xs))[x] > 0;
    assert x in xs <==> multiset(xs)[x] > 0;
  }

  /** Filtering one more element at the end. */
  lemma {:induction false} FilterSnoc<T>(f: T -> bool, xs: seq<T>, x: T)
    ensures Filter(f, xs + [x]) == Filter(f, xs) + if f(x) then [x] else []
    decreases |xs|
  {
    if xs == [] {
      assert [x][1..] == [];
    } else {
      assert (xs + [x])[1..] == xs[1..] + [x];
      FilterSnoc(f, xs[1..], x);
    }
  }
}
