/**
 * The per-instance stylesheet append done by the `withTailwind` initializer,
 * on values: which CSS text is compiled and what the class's style list
 * becomes.
 */
module Styles {
  import opened Wrappers

  /**
   * A compiled stylesheet handle, as `getCompatibleStyle(unsafeCSS(text))`
   * yields it. Only the text it was built from is modelled.
   */
  datatype Style = Compiled(cssText: string)

  /**
   * `inline ?? tailwindStyles`: the caller's text whenever one was passed,
   * the empty string included; the bundled Tailwind text otherwise.
   */
  function StyleSource(inline: Option<string>, bundled: string): (src: string)
    ensures inline.Some? ==> src == inline.value
    ensures inline.None? ==> src == bundled
  {
    match inline
    case Some(text) => text
    case None => bundled
  }

  /**
   * One initializer run: the list grows by exactly one handle, built from
   * the resolved text, and every earlier entry stays where it was, even an
   * equal one (there is no deduplication).
   */
  function AppendStyle(styles: seq<Style>, inline: Option<string>, bundled: string): (r: seq<Style>)
    ensures |r| == |styles| + 1
    ensures r[..|styles|] == styles
    ensures r[|styles|] == Compiled(StyleSource(inline, bundled))
  {
    styles + [Compiled(StyleSource(inline, bundled))]
  }

  /** The style list after `n` instances of the class have run the same initializer. */
  function AfterConstructions(styles: seq<Style>, inline: Option<string>, bundled: string, n: nat): seq<Style>
  {
    if n == 0 then styles
    else AppendStyle(AfterConstructions(styles, inline, bundled, n - 1), inline, bundled)
  }

  /**
   * After `n` constructions the list has grown by exactly `n` entries, the
   * earlier ones untouched and every new one the same compiled text.
   */
  lemma {:induction false} ConstructionsGrowByOneEach(styles: seq<Style>, inline: Option<string>, bundled: string, n: nat)
    ensures var r := AfterConstructions(styles, inline, bundled, n);
      |r| == |styles| + n && r[..|styles|] == styles &&
      forall i :: |styles| <= i < |r| ==> r[i] == Compiled(StyleSource(inline, bundled))
  {
    if n > 0 {
      ConstructionsGrowByOneEach(styles, inline, bundled, n - 1);
      var prev := AfterConstructions(styles, inline, bundled, n - 1);
      var r := AppendStyle(prev, inline, bundled);
      assert r[..|styles|] == prev[..|prev|][..|styles|];
      forall i | |styles| <= i < |r|
        ensures r[i] == Compiled(StyleSource(inline, bundled))
      {
        if i < |prev| {
          assert r[i] == r[..|prev|][i] == prev[i];
        }
      }
    }
  }
}
