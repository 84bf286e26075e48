/**
 * The attribute `set`: a set whose elements are coerced to attributes, with a
 * conjunctive `find` query and three filters that build a fresh set.
 */
module AttributeSets {
  import opened Wrappers
  import opened Attributes

  /** The set built from any iterable: each element is coerced with `attribute(el)`. */
  function FromIterable(items: seq<string>): (s: set<string>)
    ensures forall x :: x in s <==> x in items
  {
    set t | t in items :: New(t, None)
  }

  /**
   * Coercion of a whole set, as `attributes_manager.set(other)` does: every
   * string already is the attribute of the same text, so nothing changes.
   */
  function Coerce(s: set<string>): (r: set<string>)
    ensures r == s
  {
    set t | t in s :: New(t, None)
  }

  /** Every element has a first character, so `added` can be read off it. */
  predicate NonEmptyTexts(s: set<string>)
  {
    forall a :: a in s ==> |a| > 0
  }

  /** Python's `sub in text` on strings: `sub` occurs at some position of `text`. */
  function Contains(text: string, sub: string): (b: bool)
    ensures b ==> |sub| <= |text|
    ensures |sub| == 0 ==> b
    ensures text == sub ==> b
    decreases |text|
  {
    if |text| < |sub| then false
    else if text[..|sub|] == sub then true
    else Contains(text[1..], sub)
  }

  /** `sub` occurs in `text` starting at position `k`. */
  predicate OccursAt(text: string, sub: string, k: int)
  {
    0 <= k <= |text| - |sub| && text[k..k + |sub|] == sub
  }

  /** `Contains` agrees with the window definition of an occurrence. */
  lemma {:induction false} ContainsAt(text: string, sub: string)
    ensures Contains(text, sub) <==> exists k :: OccursAt(text, sub, k)
    decreases |text|
  {
    if |text| < |sub| {
    } else if text[..|sub|] == sub {
      assert OccursAt(text, sub, 0);
    } else {
      ContainsAt(text[1..], sub);
      if Contains(text, sub) {
        var k :| OccursAt(text[1..], sub, k);
        assert text[k + 1..k + 1 + |sub|] == text[1..][k..k + |sub|];
        assert OccursAt(text, sub, k + 1);
      }
      if k :| OccursAt(text, sub, k) {
        assert k != 0;
        assert text[1..][k - 1..k - 1 + |sub|] == text[k..k + |sub|];
        assert OccursAt(text[1..], sub, k - 1);
      }
    }
  }

  /** The text contains at least one of the substrings. */
  predicate AnyOf(a: string, subs: seq<string>)
  {
    exists j :: 0 <= j < |subs| && Contains(a, subs[j])
  }

  /** The text contains every one of the substrings. */
  predicate AllOf(a: string, subs: seq<string>)
  {
    forall j :: 0 <= j < |subs| ==> Contains(a, subs[j])
  }

  /** What `filter_or(*subs)` returns. */
  function FilterOrOf(s: set<string>, subs: seq<string>): (r: set<string>)
    ensures r <= s
  {
    set a | a in s && AnyOf(a, subs)
  }

  /** What `filter_and(*subs)` returns. */
  function FilterAndOf(s: set<string>, subs: seq<string>): (r: set<string>)
    ensures r <= s
  {
    set a | a in s && AllOf(a, subs)
  }

  /** What `filter_added(b)` returns. */
  function FilterAddedOf(s: set<string>, b: bool): (r: set<string>)
    requires NonEmptyTexts(s)
    ensures r <= s
  {
    set a | a in s && Added(a) == b
  }

  /** The condition of `find`: each given criterion holds (conjunction). */
  predicate Matches(a: string, name: Option<string>, added: Option<bool>): (b: bool)
    ensures name.None? && added.None? ==> b
    ensures b && name.Some? ==> Name(a) == name.value
    ensures b && added.Some? ==> |a| > 0 && Added(a) == added.value
  {
    && (name.None? || Name(a) == name.value)
    && (added.None? || (|a| > 0 && Added(a) == added.value))
  }

  /** Filtering by no substring: `filter_or()` is empty, `filter_and()` is everything. */
  lemma FilterWithoutSubstrings(s: set<string>)
    ensures FilterOrOf(s, []) == {}
    ensures FilterAndOf(s, []) == s
  {
  }

  /** The two polarity filters split the set. */
  lemma FilterAddedPartition(s: set<string>)
    requires NonEmptyTexts(s)
    ensures FilterAddedOf(s, true) + FilterAddedOf(s, false) == s
    ensures FilterAddedOf(s, true) * FilterAddedOf(s, false) == {}
  {
  }

  /** `filter_and` keeps no more than `filter_or` once a substring is given. */
  lemma FilterAndWithinFilterOr(s: set<string>, subs: seq<string>)
    requires |subs| > 0
    ensures FilterAndOf(s, subs) <= FilterOrOf(s, subs)
  {
    forall a | a in FilterAndOf(s, subs) ensures a in FilterOrOf(s, subs) {
      assert Contains(a, subs[0]);
    }
  }

  /** Which of the documented substrings occur in which documented texts. */
  lemma DocumentedOccurrences()
    ensures Contains("hell", "hell") && !Contains("hell", "lo")
    ensures Contains("hello", "hell") && Contains("hello", "lo")
    ensures !Contains("love", "hell") && Contains("love", "lo")
    ensures !Contains("bite", "hell") && !Contains("bite", "lo")
  {
    assert "hell"[..4] == "hell" && "hello"[..4] == "hell" && "love"[..2] == "lo";
    assert "hello"[1..][1..][1..] == "lo";
    assert Contains("lo", "lo");
    assert "love"[..4][0] != "hell"[0] && |"love"[1..]| == 3;
    assert "bite"[..4][0] != "hell"[0] && |"bite"[1..]| == 3;
    assert "hell"[1..][1..] == "ll" && !Contains("ll", "lo");
    assert "bite"[1..][1..] == "te" && !Contains("te", "lo");
  }

  /** The example of the `filter_or` documentation. */
  lemma FilterOrExample()
    ensures FilterOrOf({"hell", "hello", "love", "bite"}, ["hell", "lo"]) == {"hell", "hello", "love"}
  {
    var subs: seq<string> := ["hell", "lo"];
    DocumentedOccurrences();
    assert AnyOf("hell", subs) by { assert Contains("hell", subs[0]); }
    assert AnyOf("hello", subs) by { assert Contains("hello", subs[0]); }
    assert AnyOf("love", subs) by { assert Contains("love", subs[1]); }
  }

  /** The example of the `filter_and` documentation. */
  lemma FilterAndExample()
    ensures FilterAndOf({"hell", "hello", "love", "bite"}, ["hell", "lo"]) == {"hello"}
  {
    var subs: seq<string> := ["hell", "lo"];
    DocumentedOccurrences();
    assert !AllOf("hell", subs) by { assert !Contains("hell", subs[1]); }
    assert !AllOf("love", subs) by { assert !Contains("love", subs[0]); }
    assert !AllOf("bite", subs) by { assert !Contains("bite", subs[0]); }
  }

  /** The attribute `set` object. */
  class AttrSet {
    var elems: set<string>

    /** `set(iterable)`: every element coerced to an attribute. */
    constructor (items: seq<string>)
      ensures elems == FromIterable(items)
    {
      elems := FromIterable(items);
    }

    /** `add(value, added=…)`: inserts the coerced attribute. */
    method Add(value: string, added: Option<bool>)
      requires added == Some(false) ==> |value| > 0
      modifies this
      ensures elems == old(elems) + {New(value, added)}
    {
      elems := elems + {New(value, added)};
    }

    /**
     * `find(name, added)`: fails with `ValueError` when neither criterion is
     * given; otherwise returns some element meeting every given criterion, or
     * nothing exactly when no element does.
     */
    method Find(name: Option<string>, added: Option<bool>) returns (r: Result<Option<string>>)
      requires added.Some? ==> forall a :: a in elems && (name.None? || Name(a) == name.value) ==> |a| > 0
      ensures r.Failure? <==> name.None? && added.None?
      ensures r.Failure? ==> r.error == ValueError
      ensures r.Success? && r.value.Some? ==> r.value.value in elems && Matches(r.value.value, name, added)
      ensures r.Success? && r.value.None? ==> forall a :: a in elems ==> !Matches(a, name, added)
    {
      if name.None? && added.None? {
        return Failure(ValueError);
      }
      var rest := elems;
      while rest != {}
        invariant rest <= elems
        invariant forall a :: a in elems - rest ==> !Matches(a, name, added)
        decreases rest
      {
        var att :| att in rest;
        if (name.None? || Name(att) == name.value) && (added.None? || Added(att) == added.value) {
          return Success(Some(att));
        }
        rest := rest - {att};
      }
      return Success(None);
    }

    /** `filter_or(*subs)`: a fresh set of the elements containing some substring. */
    method FilterOr(subs: seq<string>) returns (rv: AttrSet)
      ensures fresh(rv)
      ensures rv.elems == FilterOrOf(elems, subs)
    {
      rv := new AttrSet([]);
      var rest := elems;
      while rest != {}
        invariant rest <= elems
        invariant fresh(rv)
        invariant rv.elems == FilterOrOf(elems - rest, subs)
        decreases rest
      {
        var att :| att in rest;
        for j := 0 to |subs|
          invariant rv.elems == FilterOrOf(elems - rest, subs) + (if AnyOf(att, subs[..j]) then {att} else {})
        {
          if Contains(att, subs[j]) {
            rv.Add(att, None);
          }
          assert AnyOf(att, subs[..j + 1]) <==> AnyOf(att, subs[..j]) || Contains(att, subs[j]) by {
            assert forall k :: 0 <= k < j ==> subs[..j + 1][k] == subs[..j][k];
          }
        }
        assert subs[..|subs|] == subs;
        rest := rest - {att};
      }
    }

    /** `filter_and(*subs)`: a fresh set of the elements containing every substring. */
    method FilterAnd(subs: seq<string>) returns (rv: AttrSet)
      ensures fresh(rv)
      ensures rv.elems == FilterAndOf(elems, subs)
    {
      rv := new AttrSet([]);
      var rest := elems;
      while rest != {}
        invariant rest <= elems
        invariant fresh(rv)
        invariant rv.elems == FilterAndOf(elems - rest, subs)
        decreases rest
      {
        var att :| att in rest;
        var j := 0;
        var broke := false;
        while j < |subs| && !broke
          invariant 0 <= j <= |subs|
          decreases |subs| - j, !broke
          invariant !broke ==> AllOf(att, subs[..j])
          invariant broke ==> !AllOf(att, subs)
        {
          if !Contains(att, subs[j]) {
            broke := true;
          } else {
            assert forall k :: 0 <= k < j ==> subs[..j + 1][k] == subs[..j][k];
            j := j + 1;
          }
        }
        if !broke {
          assert subs[..j] == subs;
          rv.Add(att, None);
        }
        rest := rest - {att};
      }
    }

    /** `filter_added(b)`: a fresh set of the elements of polarity `b`. */
    method FilterAdded(b: bool) returns (rv: AttrSet)
      requires NonEmptyTexts(elems)
      ensures fresh(rv)
      ensures rv.elems == FilterAddedOf(elems, b)
    {
      rv := new AttrSet([]);
      var rest := elems;
      while rest != {}
        invariant rest <= elems
        invariant fresh(rv)
        invariant rv.elems == FilterAddedOf(elems - rest, b)
        decreases rest
      {
        var att :| att in rest;
        if Added(att) == b {
          rv.Add(att, None);
        }
        rest := rest - {att};
      }
    }
  }
}
