/**
 * The `attribute` value type: a string whose optional leading minus sign
 * (the marker) says that the attribute is removed rather than added.
 * An attribute is its text; two attributes are equal when their texts are.
 */
module Attributes {
  import opened Wrappers

  /** The polarity marker. */
  const Marker: char := '-'

  /** Python's `removeprefix("-")`: drops exactly one leading marker, if any. */
  function RemoveMarker(t: string): (r: string)
    ensures |t| > 0 && t[0] == Marker ==> [Marker] + r == t
    ensures (|t| == 0 || t[0] != Marker) ==> r == t
  {
    if |t| > 0 && t[0] == Marker then t[1..] else t
  }

  /**
   * The constructor `attribute(t, added)`. Without `added` the text is kept as
   * it is; with `added == false` a marker is prepended unless one is there
   * already; with `added == true` one leading marker is removed.
   * Reading `t[0]` fails on the empty text, hence the precondition.
   */
  function New(t: string, added: Option<bool>): (a: string)
    requires added == Some(false) ==> |t| > 0
    ensures added == None ==> a == t
    ensures added == Some(false) ==> |a| > 0 && a[0] == Marker && RemoveMarker(a) == RemoveMarker(t)
    ensures added == Some(true) && |t| > 0 && t[0] == Marker ==> [Marker] + a == t
    ensures added == Some(true) && (|t| == 0 || t[0] != Marker) ==> a == t
  {
    match added
    case None => t
    case Some(b) =>
      if !b && t[0] != Marker then [Marker] + t
      else if b then RemoveMarker(t)
      else t
  }

  /** The `name` property: the text without one leading marker. */
  function Name(a: string): (n: string)
    ensures |a| > 0 && a[0] == Marker ==> [Marker] + n == a
    ensures (|a| == 0 || a[0] != Marker) ==> n == a
  {
    RemoveMarker(a)
  }

  /** The `added` property: the text does not start with the marker. */
  predicate Added(a: string): (b: bool)
    requires |a| > 0
    ensures b ==> Name(a) == a
    ensures !b ==> [Marker] + Name(a) == a
  {
    a[0] != Marker
  }

  /** The text of an attribute is recovered from its name and its polarity. */
  lemma TextFromNameAndPolarity(a: string)
    requires |a| > 0
    ensures a == if Added(a) then Name(a) else [Marker] + Name(a)
  {
  }

  /**
   * Without an explicit polarity the text is kept verbatim, the polarity is
   * read off the first character and the name drops one marker.
   */
  lemma InferredPolarity(t: string)
    requires |t| > 0
    ensures New(t, None) == t
    ensures Added(New(t, None)) <==> t[0] != Marker
    ensures Name(New(t, None)) == if t[0] == Marker then t[1..] else t
  {
  }

  /**
   * An explicit polarity is honoured and the name is kept, provided that for
   * `added == true` the name neither is empty nor starts with a marker itself.
   */
  lemma ExplicitPolarity(t: string, b: bool)
    requires |t| > 0
    requires b ==> |Name(t)| > 0 && Name(t)[0] != Marker
    ensures |New(t, Some(b))| > 0
    ensures Added(New(t, Some(b))) == b
    ensures Name(New(t, Some(b))) == Name(t)
  {
  }

  /**
   * `removeprefix` strips one marker only: a text with two leading markers is
   * still a removed attribute after `added=True`.
   */
  lemma OneMarkerStripped(t: string)
    requires |t| >= 2 && t[0] == Marker && t[1] == Marker
    ensures New(t, Some(true)) == t[1..]
    ensures !Added(New(t, Some(true)))
  {
  }

  /**
   * For a plain name `n`, an explicit polarity gives the same attribute as
   * writing the marker by hand, whichever form `n` is given in.
   */
  lemma ExplicitMatchesInferred(n: string, b: bool)
    requires |n| > 0 && n[0] != Marker
    ensures New(n, Some(b)) == New(if b then n else [Marker] + n, None)
    ensures New([Marker] + n, Some(b)) == New(n, Some(b))
  {
  }

  /** The examples of the class documentation. */
  lemma DocumentedExamples()
    ensures Name("hello") == "hello" && Added("hello")
    ensures Name("-hello") == "hello" && !Added("-hello")
    ensures New("hello", Some(false)) == New("-hello", None) == "-hello"
    ensures New("-hello", Some(true)) == New("hello", None) == "hello"
  {
    ExplicitMatchesInferred("hello", false);
    ExplicitMatchesInferred("hello", true);
  }
}
