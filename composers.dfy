/**
 * The two callable lists stored in the registries. Both take the token
 * tuple `(tag, t1, …, tn)`, build an attribute set from `t1 … tn`, run the
 * callbacks in registration order and return the tag followed by plain
 * strings, in the set's arbitrary order.
 */
module Composers {
  import opened AttributeSets
  import opened SetAlgebra
  import opened Registration

  /** `f_k(… f_1(s))`: each callback receives what the previous one returned. */
  function Pipe(fs: seq<Callback>, s: set<string>): (r: set<string>)
    ensures fs == [] ==> r == s
    ensures |fs| == 1 ==> r == fs[0].run(s)
    decreases |fs|
  {
    if fs == [] then s else Pipe(fs[1..], fs[0].run(s))
  }

  /** Running one more callback after a chain applies it to the chain's result. */
  lemma {:induction false} PipeSnoc(fs: seq<Callback>, f: Callback, s: set<string>)
    ensures Pipe(fs + [f], s) == f.run(Pipe(fs, s))
    decreases |fs|
  {
    if fs != [] {
      assert (fs + [f])[1..] == fs[1..] + [f];
      PipeSnoc(fs[1..], f, fs[0].run(s));
    }
  }

  /** Chaining two lists of adjusters is piping through one, then the other. */
  lemma {:induction false} PipeAppend(fs: seq<Callback>, gs: seq<Callback>, s: set<string>)
    ensures Pipe(fs + gs, s) == Pipe(gs, Pipe(fs, s))
    decreases |fs|
  {
    if fs != [] {
      assert (fs + gs)[1..] == fs[1..] + gs;
      PipeAppend(fs[1..], gs, fs[0].run(s));
    } else {
      assert fs + gs == gs;
    }
  }

  /**
   * The defaulters' accumulator after running `fs` from accumulator `acc`:
   * each callback is called on `base | acc` and its result is added to `acc`.
   */
  function AccumulateFrom(fs: seq<Callback>, base: set<string>, acc: set<string>): (r: set<string>)
    ensures acc <= r
    decreases |fs|
  {
    if fs == [] then acc
    else AccumulateFrom(fs[1..], base, acc + fs[0].run(Wrapped(Or, base, [acc])))
  }

  /** The accumulator after running every callback of `fs`, starting from `set()`. */
  function Accumulate(fs: seq<Callback>, base: set<string>): (r: set<string>)
    ensures fs == [] ==> r == {}
    ensures |fs| > 0 ==> fs[0].run(base) <= r
  {
    var empty: set<string> := {};
    // the first defaulter is called on `base | set()`, that is on `base`
    assert Wrapped(Or, base, [empty]) == base;
    AccumulateFrom(fs, base, empty)
  }

  /** What the `i`-th defaulter is called with: the base tokens and all earlier results. */
  function DefaulterInput(fs: seq<Callback>, base: set<string>, i: nat): (r: set<string>)
    requires i <= |fs|
    ensures base <= r
    ensures i == 0 ==> r == base
  {
    base + Accumulate(fs[..i], base)
  }

  lemma {:induction false} AccumulateFromSnoc(fs: seq<Callback>, f: Callback, base: set<string>, acc: set<string>)
    ensures AccumulateFrom(fs + [f], base, acc)
         == AccumulateFrom(fs, base, acc) + f.run(base + AccumulateFrom(fs, base, acc))
    decreases |fs|
  {
    if fs == [] {
      assert [f][1..] == [];
    } else {
      assert (fs + [f])[1..] == fs[1..] + [f];
      AccumulateFromSnoc(fs[1..], f, base, acc + fs[0].run(Wrapped(Or, base, [acc])));
    }
  }

  /** One more defaulter adds its result, computed on the base and the accumulator so far. */
  lemma AccumulateSnoc(fs: seq<Callback>, f: Callback, base: set<string>)
    ensures Accumulate(fs + [f], base) == Accumulate(fs, base) + f.run(base + Accumulate(fs, base))
  {
    AccumulateFromSnoc(fs, f, base, {});
  }

  /** The accumulator only grows: a longer prefix of the defaulters never loses a token. */
  lemma {:induction false} AccumulateGrows(fs: seq<Callback>, base: set<string>, i: nat, j: nat)
    requires i <= j <= |fs|
    ensures Accumulate(fs[..i], base) <= Accumulate(fs[..j], base)
    decreases j - i
  {
    if i < j {
      AccumulateGrows(fs, base, i, j - 1);
      assert fs[..j] == fs[..j - 1] + [fs[j - 1]];
      AccumulateSnoc(fs[..j - 1], fs[j - 1], base);
    }
  }

  /**
   * The accumulator holds exactly the tokens some defaulter returned, each
   * defaulter having been called on the base and the earlier results. Base
   * tokens appear only when a defaulter returns them.
   */
  lemma {:induction false} AccumulateMembers(fs: seq<Callback>, base: set<string>, x: string)
    ensures x in Accumulate(fs, base) <==>
              exists i :: 0 <= i < |fs| && x in fs[i].run(DefaulterInput(fs, base, i))
    decreases |fs|
  {
    if fs == [] {
    } else {
      var n := |fs| - 1;
      var init := fs[..n];
      assert fs == init + [fs[n]];
      AccumulateSnoc(init, fs[n], base);
      AccumulateMembers(init, base, x);
      assert forall i :: 0 <= i <= n ==> fs[..i] == init[..i];
      assert forall i :: 0 <= i < n ==> DefaulterInput(fs, base, i) == DefaulterInput(init, base, i);
      assert DefaulterInput(fs, base, n) == base + Accumulate(init, base);
    }
  }

  /**
   * `out` is the tuple `(head, *(str(el) for el in s))`: the head, then each
   * element of `s` exactly once, in some order.
   */
  predicate Flattens(out: seq<string>, head: string, s: set<string>): (b: bool)
    ensures b ==> (set i | 1 <= i < |out| :: out[i]) == s
  {
    && |out| == |s| + 1
    && out[0] == head
    && (forall i :: 1 <= i < |out| ==> out[i] in s)
    && (forall x :: x in s ==> x in out[1..])
    && (forall i, j :: 1 <= i < j < |out| ==> out[i] != out[j])
  }

  /** Builds the returned tuple, visiting the set in an arbitrary order. */
  method Flatten(head: string, s: set<string>) returns (out: seq<string>)
    ensures Flattens(out, head, s)
  {
    out := [head];
    var rest := s;
    while rest != {}
      invariant rest <= s
      invariant |out| >= 1 && |out| + |rest| == |s| + 1
      invariant out[0] == head
      invariant forall i :: 1 <= i < |out| ==> out[i] in s && out[i] !in rest
      invariant forall x :: x in s && x !in rest ==> x in out[1..]
      invariant forall i, j :: 1 <= i < j < |out| ==> out[i] != out[j]
      decreases rest
    {
      var x :| x in rest;
      assert |rest - {x}| == |rest| - 1;
      assert (out + [x])[1..] == out[1..] + [x];
      out := out + [x];
      rest := rest - {x};
    }
  }

  /** `__adjuster_callable_list.__call__(tokens)`. */
  method Adjust(fs: seq<Callback>, tokens: seq<string>) returns (out: seq<string>)
    requires |tokens| > 0
    ensures Flattens(out, tokens[0], Pipe(fs, FromIterable(tokens[1..])))
  {
    var initial := new AttrSet(tokens[1..]);
    var current := initial.elems;
    ghost var start := current;
    for i := 0 to |fs|
      invariant current == Pipe(fs[..i], start)
    {
      assert fs[..i + 1] == fs[..i] + [fs[i]];
      PipeSnoc(fs[..i], fs[i], start);
      current := fs[i].run(current);
    }
    assert fs[..|fs|] == fs;
    out := Flatten(tokens[0], current);
  }

  /** `__defaulter_callable_list.__call__(tokens)`. */
  method Default(fs: seq<Callback>, tokens: seq<string>) returns (out: seq<string>)
    requires |tokens| > 0
    ensures Flattens(out, tokens[0], Accumulate(fs, FromIterable(tokens[1..])))
  {
    var initial := new AttrSet(tokens[1..]);
    var base := initial.elems;
    var rv: set<string> := {};
    for i := 0 to |fs|
      invariant rv == Accumulate(fs[..i], base)
    {
      assert fs[..i + 1] == fs[..i] + [fs[i]];
      AccumulateSnoc(fs[..i], fs[i], base);
      rv := rv + fs[i].run(Wrapped(Or, base, [rv]));
    }
    assert fs[..|fs|] == fs;
    out := Flatten(tokens[0], rv);
  }

  /** With no adjuster registered, the tokens come back as they were given. */
  lemma NoAdjusters(tokens: seq<string>)
    requires |tokens| > 0
    ensures forall x :: x in Pipe([], FromIterable(tokens[1..])) <==> x in tokens[1..]
  {
  }

  /** Adjusters run in registration order: the second sees the first's output. */
  lemma AdjusterOrderExample()
    ensures Pipe([Callback("smile", s => s + {"smile"}),
                  Callback("calm", s => if "smile" in s then s - {"frown"} else s)], {"frown"})
            == {"smile"}
    ensures Pipe([Callback("calm", s => if "smile" in s then s - {"frown"} else s),
                  Callback("smile", s => s + {"smile"})], {"frown"})
            == {"frown", "smile"}
  {
    var smile := Callback("smile", s => s + {"smile"});
    var calm := Callback("calm", (s: set<string>) => if "smile" in s then s - {"frown"} else s);
    assert [smile, calm][1..] == [calm];
    assert [calm, smile][1..] == [smile];
  }

  /** Two defaulters: the second is called on the base plus the first's result. */
  lemma DefaulterExample()
    ensures Accumulate([Callback("blush", s => {"blush"}), Callback("eyes", s => {"open_eyes"})], {"happy"})
            == {"blush", "open_eyes"}
    ensures DefaulterInput([Callback("blush", s => {"blush"}), Callback("eyes", s => {"open_eyes"})], {"happy"}, 1)
            == {"happy", "blush"}
  {
    var f1 := Callback("blush", (s: set<string>) => {"blush"});
    var f2 := Callback("eyes", (s: set<string>) => {"open_eyes"});
    AccumulateSnoc([], f1, {"happy"});
    assert [f1, f2] == [f1] + [f2];
    AccumulateSnoc([f1], f2, {"happy"});
    assert [f1, f2][..1] == [f1];
  }
}
