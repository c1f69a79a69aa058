/**
 * The reveal helper of the page: the one-way "has entered the viewport" flag
 * kept by `useInView`, and the class attribute that `Reveal` renders from it.
 * The intersection observer itself is the browser's; each of its callbacks
 * becomes a call of InView.Observe with the batch of entries it delivers.
 */
module Reveal {

  /** True once some observation in the history reported an intersection. */
  function EverIntersected(seen: seq<bool>): bool
  {
    if seen == [] then false else EverIntersected(seen[..|seen| - 1]) || seen[|seen| - 1]
  }

  /** The flag is set exactly when some observation reported an intersection. */
  lemma {:induction false} EverIntersectedIff(seen: seq<bool>)
    ensures EverIntersected(seen) <==> exists i :: 0 <= i < |seen| && seen[i]
  {
    if seen != [] {
      var init := seen[..|seen| - 1];
      EverIntersectedIff(init);
      if EverIntersected(init) {
        var i :| 0 <= i < |init| && init[i];
        assert seen[i];
      }
      if !seen[|seen| - 1] && exists i :: 0 <= i < |seen| && seen[i] {
        var i :| 0 <= i < |seen| && seen[i];
        assert init[i];
      }
    }
  }

  /** Later observations never clear the flag, whatever they report. */
  lemma {:induction false} EverIntersectedMonotone(seen: seq<bool>, later: seq<bool>)
    ensures EverIntersected(seen) ==> EverIntersected(seen + later)
  {
    if later != [] {
      assert (seen + later)[..|seen + later| - 1] == seen + later[..|later| - 1];
      EverIntersectedMonotone(seen, later[..|later| - 1]);
    } else {
      assert seen + later == seen;
    }
  }

  /**
   * If observation k is the first one reporting an intersection, the flag is
   * false after the first j observations for j <= k and true for every j > k.
   */
  lemma FirstIntersectionReveals(seen: seq<bool>, k: nat, j: nat)
    requires k < |seen| && seen[k]
    requires forall i :: 0 <= i < k ==> !seen[i]
    requires j <= |seen|
    ensures EverIntersected(seen[..j]) <==> k < j
  {
    EverIntersectedIff(seen[..j]);
    if k < j {
      assert seen[..j][k];
    }
  }

  /** The observer state of one `useInView` call. */
  class InView {
    /** Whether `ref.current` held an element when the effect ran. */
    const attached: bool
    /** Whether the observer is connected. */
    var observing: bool
    /** The `inView` flag. */
    var inView: bool
    /** The first entry's `isIntersecting` of every callback so far. */
    ghost var seen: seq<bool>

    ghost predicate Valid()
      reads this
    {
      && inView == EverIntersected(seen)
      && (!attached ==> !observing && seen == [])
    }

    /**
     * Mounting: the flag starts false; an observer is created and connected
     * only when an element is attached.
     */
    constructor (attached: bool)
      ensures Valid()
      ensures this.attached == attached && observing == attached
      ensures !inView && seen == []
    {
      this.attached := attached;
      observing := attached;
      inView := false;
      seen := [];
    }

    /**
     * One observer callback. Only the first entry of the batch is read; an
     * intersecting entry sets the flag, any other leaves it as it was.
     */
    method Observe(entries: seq<bool>)
      requires Valid() && observing
      requires 0 < |entries|
      modifies this`inView, this`seen
      ensures Valid()
      ensures seen == old(seen) + [entries[0]]
      ensures inView == (old(inView) || entries[0])
    {
      if entries[0] {
        inView := true;
      }
      seen := seen + [entries[0]];
    }

    /** Unmounting: the effect cleanup disconnects the observer; the flag is kept. */
    method Disconnect()
      requires Valid()
      modifies this`observing
      ensures Valid() && !observing
    {
      observing := false;
    }
  }

  /** `map[effect] ?? "reveal-up"` over the four known effects. */
  function EffectClass(effect: string): (r: string)
    ensures effect == "up" || effect == "left" || effect == "right" || effect == "flip"
      ==> r == "reveal-" + effect
    ensures !(effect == "up" || effect == "left" || effect == "right" || effect == "flip")
      ==> r == "reveal-up"
  {
    var classes := map["up" := "reveal-up", "left" := "reveal-left",
                       "right" := "reveal-right", "flip" := "reveal-flip"];
    if effect in classes then classes[effect] else "reveal-up"
  }

  /** ASCII whitespace, which separates the classes of a class attribute. */
  predicate IsSpace(c: char)
  {
    c == ' ' || c == '\t' || c == '\n' || c == '\U{0C}' || c == '\r'
  }

  predicate NoSpace(w: string)
  {
    forall i :: 0 <= i < |w| ==> !IsSpace(w[i])
  }

  /** The longest prefix of s without whitespace. */
  function LeadingWord(s: string): (w: string)
    ensures |w| <= |s| && w == s[..|w|] && NoSpace(w)
    ensures |w| < |s| ==> IsSpace(s[|w|])
  {
    if s == [] || IsSpace(s[0]) then [] else [s[0]] + LeadingWord(s[1..])
  }

  /** The class names a class attribute denotes: its whitespace-separated words. */
  function Tokens(s: string): (ts: seq<string>)
    decreases |s|
  {
    if s == [] then []
    else if IsSpace(s[0]) then Tokens(s[1..])
    else
      var w := LeadingWord(s);
      [w] + Tokens(s[|w|..])
  }

  /** A word followed by a space is read as that word. */
  lemma {:induction false} LeadingWordOf(w: string, rest: string)
    requires NoSpace(w)
    ensures LeadingWord(w + " " + rest) == w
  {
    if w != [] {
      assert (w + " " + rest)[1..] == w[1..] + " " + rest;
      LeadingWordOf(w[1..], rest);
    }
  }

  /** Splitting `w + " " + rest` yields w, then the words of rest. */
  lemma TokensOfWord(w: string, rest: string)
    requires w != [] && NoSpace(w)
    ensures Tokens(w + " " + rest) == [w] + Tokens(rest)
  {
    var s := w + " " + rest;
    LeadingWordOf(w, rest);
    assert s[|w|..] == " " + rest;
    assert (" " + rest)[1..] == rest;
  }

  /** The words after the effect class: "in" when revealed, then the caller's classes. */
  lemma SeparatorTokens(inView: bool, className: string)
    ensures Tokens((if inView then "in" else "") + " " + className)
      == (if inView then ["in"] else []) + Tokens(className)
  {
    if inView {
      assert NoSpace("in");
      TokensOfWord("in", className);
    } else {
      assert ("" + " " + className)[1..] == className;
    }
  }

  /**
   * The template string `${effect class} ${inView ? "in" : ""} ${className}`.
   * Read as a class list, it is the effect class, then "in" exactly when the
   * element has been revealed, then the caller's classes.
   */
  function ClassAttr(effect: string, inView: bool, className: string): (r: string)
    ensures Tokens(r) == [EffectClass(effect)] + (if inView then ["in"] else []) + Tokens(className)
  {
    var e := EffectClass(effect);
    var tail := (if inView then "in" else "") + " " + className;
    assert NoSpace(e);
    TokensOfWord(e, tail);
    SeparatorTokens(inView, className);
    e + " " + tail
  }

  /** With no extra classes, "in" is present if and only if the element was revealed. */
  lemma InClassIffRevealed(effect: string, inView: bool)
    ensures "in" in Tokens(ClassAttr(effect, inView, "")) <==> inView
  {
    assert Tokens("") == [];
    assert EffectClass(effect) != "in";
  }
}
