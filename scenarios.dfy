/**
 * Interaction sequences on the page, checked from the contracts of the
 * overlay, observer and page alone.
 */
module Scenarios {
  import opened Cyclic
  import opened ProjectCatalog
  import opened ProjectDetails
  import opened Reveal
  import opened App

  /** Three images: next wraps 0 -> 1 -> 2 -> 0, prev wraps 0 -> 2, a dot jumps. */
  method CarouselWraps()
  {
    var page := new Page();
    page.OpenProject("smart-city");
    var o := page.overlay;
    assert o.imageCount == Some(3);
    o.Next();
    assert o.idx == 1;
    o.Next();
    assert o.idx == 2;
    o.Next();
    assert o.idx == 0;
    o.Prev();
    assert o.idx == 2;
    o.Jump(1);
    assert o.idx == 1;
    var dots := o.Dots();
    assert dots == [false, true, false];
  }

  /** Autoplay and the arrows share one transition, so a click then a tick skips two images. */
  method AutoplayRunsBesideArrows()
  {
    var page := new Page();
    page.OpenProject("smart-parking");
    assert page.overlay.imageCount == Some(4);
    page.overlay.Next();
    page.AutoplayFires();
    assert page.overlay.idx == 2;
    page.AutoplayFires();
    page.AutoplayFires();
    assert page.overlay.idx == 0;
    // Arithmetic only (no catalog entry has two images): on a ring of two, two steps return to 0.
    assert Succ(Succ(0, 2), 2) == 0;
  }

  /** Closing stops the old interval; reopening starts again at image 0. */
  method ReopenStartsAtZero()
  {
    var page := new Page();
    page.OpenProject("quiz-app");
    var first := page.overlay;
    page.AutoplayFires();
    assert first.idx == 1;
    page.KeyDown("Enter");
    assert page.overlay == first;
    page.KeyDown("Escape");
    assert page.selectedProject == None;
    assert !first.timerRunning && first.idx == 1;
    page.OpenProject("ai-job-screening");
    assert page.overlay != first && page.overlay.idx == 0 && page.overlay.timerRunning;
    page.BackdropMouseDown(true);
    assert page.overlay != null;
    page.BackdropMouseDown(false);
    assert page.overlay == null;
  }

  /** An unknown id renders nothing and schedules nothing, yet Escape still closes it. */
  method UnknownProject()
  {
    var page := new Page();
    page.OpenProject("no-such-project");
    assert !page.overlay.Renders() && !page.overlay.timerRunning;
    page.KeyDown("Escape");
    assert page.selectedProject == None;
    // The empty id is selected but mounts no overlay, so Escape has no listener to reach.
    page.OpenProject("");
    assert page.selectedProject == Some("") && page.overlay == null;
    page.KeyDown("Escape");
    assert page.selectedProject == Some("");
  }

  /** The flag rises with the first intersecting callback and stays up. */
  method RevealOnce()
  {
    var v := new InView(true);
    v.Observe([false]);
    assert !v.inView;
    v.Observe([false, true]);
    assert !v.inView;
    v.Observe([true]);
    assert v.inView;
    v.Observe([false]);
    v.Disconnect();
    assert v.inView;
    var detached := new InView(false);
    assert !detached.observing && !detached.inView;
  }

  /** A form edit, then submit. */
  method FormEditThenSubmit()
  {
    var page := new Page();
    page.FormChange("email", "a@b.c");
    assert page.formData["email"] == "a@b.c" && page.formData["name"] == "";
    page.Submit();
    assert page.formData["email"] == "";
    page.Scroll(120.0);
    assert ScrolledDarkClass in page.navClasses;
    page.Scroll(80.0);
    assert page.navClasses == NavClasses;
  }
}
