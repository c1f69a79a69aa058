/**
 * The project detail overlay: one mounted instance of the overlay component
 * with its carousel index, its autoplay interval and its close decisions.
 * Browser callbacks (button clicks, interval firings, key and mouse events)
 * are method calls on the instance.
 */
module ProjectDetails {
  import opened Cyclic
  import opened ProjectCatalog

  /** The position dots: one per image, dot i highlighted when i is the current index. */
  function DotStates(n: nat, idx: nat): (r: seq<bool>)
    ensures |r| == n
    ensures forall i :: 0 <= i < n ==> (r[i] <==> i == idx)
  {
    seq(n, i => i == idx)
  }

  /** Number of highlighted dots. */
  function CountActive(s: seq<bool>): nat
  {
    if s == [] then 0 else CountActive(s[..|s| - 1]) + (if s[|s| - 1] then 1 else 0)
  }

  /** With the index at or past the last dot, no dot is highlighted. */
  lemma {:induction false} NoDotActive(n: nat, idx: nat)
    requires n <= idx
    ensures CountActive(DotStates(n, idx)) == 0
  {
    if n > 0 {
      assert DotStates(n, idx)[..n - 1] == DotStates(n - 1, idx);
      NoDotActive(n - 1, idx);
    }
  }

  /** With a valid index, exactly one dot is highlighted. */
  lemma {:induction false} ExactlyOneDotActive(n: nat, idx: nat)
    requires idx < n
    ensures CountActive(DotStates(n, idx)) == 1
  {
    assert DotStates(n, idx)[..n - 1] == DotStates(n - 1, idx);
    if idx == n - 1 {
      NoDotActive(n - 1, idx);
    } else {
      ExactlyOneDotActive(n - 1, idx);
    }
  }

  /** One mounted overlay component for the project id it was opened with. */
  class Overlay {
    /** The `projectId` prop. */
    const projectId: string
    /** Image count of the looked-up project; None when the id is unknown. */
    const imageCount: Option<nat>
    /** The carousel position `idx`. */
    var idx: nat
    /** Whether the autoplay interval of this instance is scheduled. */
    var timerRunning: bool
    /** Whether the instance is still mounted. */
    var mounted: bool

    ghost predicate Valid()
      reads this
    {
      && imageCount == Lookup(projectId)
      && (imageCount.Some? ==> idx < imageCount.value)
      && (imageCount.None? ==> idx == 0)
      && (timerRunning ==> mounted && imageCount.Some?)
    }

    /** The overlay renders its backdrop, card and carousel only for a known project. */
    predicate Renders()
      reads this
    {
      imageCount.Some?
    }

    /**
     * Mounting: the index starts at 0, and the autoplay interval is scheduled
     * exactly when the project exists.
     */
    constructor (projectId: string)
      ensures Valid() && mounted
      ensures this.projectId == projectId
      ensures idx == 0
      ensures Renders() <==> projectId in ImageCounts
      ensures timerRunning <==> Renders()
    {
      this.projectId := projectId;
      this.imageCount := Lookup(projectId);
      idx := 0;
      mounted := true;
      timerRunning := projectId in ImageCounts;
    }

    /** The "next image" arrow. */
    method Next()
      requires Valid() && mounted && Renders()
      modifies this`idx
      ensures Valid()
      ensures idx == Succ(old(idx), imageCount.value)
    {
      idx := Succ(idx, imageCount.value);
    }

    /** The "previous image" arrow. */
    method Prev()
      requires Valid() && mounted && Renders()
      modifies this`idx
      ensures Valid()
      ensures idx == Pred(old(idx), imageCount.value)
    {
      idx := Pred(idx, imageCount.value);
    }

    /** Dot i; dots exist only for i in [0, number of images). */
    method Jump(i: nat)
      requires Valid() && mounted && Renders()
      requires i < imageCount.value
      modifies this`idx
      ensures Valid()
      ensures idx == i
    {
      idx := i;
    }

    /** One firing of the autoplay interval: the same transition as Next. */
    method Tick()
      requires Valid() && timerRunning
      modifies this`idx
      ensures Valid()
      ensures idx == Succ(old(idx), imageCount.value)
    {
      idx := Succ(idx, imageCount.value);
    }

    /** Which dots the card currently renders and highlights. */
    function Dots(): (r: seq<bool>)
      requires Valid() && Renders()
      reads this
      ensures |r| == imageCount.value && idx < |r| && r[idx]
      ensures CountActive(r) == 1
    {
      ExactlyOneDotActive(imageCount.value, idx);
      DotStates(imageCount.value, idx)
    }

    /**
     * Unmounting: the effect cleanup clears the interval, so no later firing
     * can reach this instance.
     */
    method Unmount()
      requires Valid()
      modifies this`mounted, this`timerRunning
      ensures Valid()
      ensures !mounted && !timerRunning
    {
      timerRunning := false;
      mounted := false;
    }
  }
}
