/**
 * The page component: which project overlay is open, the rotating headline
 * word, the navbar's scroll class and the contact-form record. Window
 * listeners and intervals are modelled by the methods their callbacks run.
 */
module App {
  import opened Cyclic
  import opened ProjectCatalog
  import opened ProjectDetails

  /** The words the headline rotates through. */
  const Words: seq<string> := ["HTML", "CSS", "JavaScript", "React"]

  /** The navbar darkens once the page is scrolled strictly past this many pixels. */
  const ScrollThreshold: real := 80.0

  const ScrolledDarkClass: string := "scrolled-dark"

  /** The classes the navbar is rendered with. */
  const NavClasses: set<string> :=
    {"navbar", "fixed", "top-0", "w-full", "z-[60]", "transition-all", "duration-300", "bg-transparent"}

  /** The four keys of the contact-form record. */
  const FormFields: set<string> := {"name", "email", "subject", "message"}

  /** The names of the form's input elements; there is no input for "subject". */
  const FormInputs: set<string> := {"name", "email", "message"}

  /** The record the form starts with and is reset to on submit. */
  function EmptyForm(): (f: map<string, string>)
    ensures f.Keys == FormFields
    ensures forall k :: k in f ==> f[k] == ""
  {
    map["name" := "", "email" := "", "subject" := "", "message" := ""]
  }

  /** `{ ...form, [key]: value }`: key now holds value and every other key is kept. */
  function WithField(form: map<string, string>, key: string, value: string): (r: map<string, string>)
    ensures r.Keys == form.Keys + {key}
    ensures r[key] == value
    ensures forall k :: k in form && k != key ==> r[k] == form[k]
  {
    form[key := value]
  }

  /** Editing one of the record's fields keeps the record's four keys. */
  lemma WithFieldKeepsFields(form: map<string, string>, key: string, value: string)
    requires form.Keys == FormFields && key in FormInputs
    ensures WithField(form, key, value).Keys == FormFields
  {
  }

  /** The navbar's classes after a scroll event at position scrollY. */
  function AfterScroll(classes: set<string>, scrollY: real): (r: set<string>)
    ensures ScrolledDarkClass in r <==> scrollY > ScrollThreshold
    ensures r - {ScrolledDarkClass} == classes - {ScrolledDarkClass}
  {
    if scrollY > ScrollThreshold then classes + {ScrolledDarkClass} else classes - {ScrolledDarkClass}
  }

  /** The navbar's classes depend only on the latest scroll position. */
  lemma AfterScrollForgetsHistory(classes: set<string>, y1: real, y2: real)
    ensures AfterScroll(AfterScroll(classes, y1), y2) == AfterScroll(classes, y2)
  {
  }

  /** At exactly 80 pixels the navbar is not dark; just past it, it is. */
  lemma ScrollBoundary(classes: set<string>)
    ensures ScrolledDarkClass !in AfterScroll(classes, 80.0)
    ensures ScrolledDarkClass in AfterScroll(classes, 80.5)
  {
  }

  /** The headline returns to any word after |Words| rotations. */
  lemma HeadlineFullCycle(i: nat)
    requires i < |Words|
    ensures Advance(i, |Words|, |Words|) == i
  {
    AdvanceFullCycle(i, |Words|);
  }

  /** `selectedProject && <ProjectDetails …/>`: the overlay mounts only for a truthy id. */
  predicate MountsOverlay(selected: Option<string>)
  {
    selected.Some? && selected.value != ""
  }

  class Page {
    /** `selectedProject`: the id whose overlay is open, if any. */
    var selectedProject: Option<string>
    /** The overlay instance mounted for selectedProject. */
    var overlay: Overlay?
    /** `wordIndex` into Words. */
    var wordIndex: nat
    /** The navbar element's class list. */
    var navClasses: set<string>
    /** `formData`. */
    var formData: map<string, string>

    ghost predicate Valid()
      reads this, overlay
    {
      && (MountsOverlay(selectedProject) <==> overlay != null)
      && (overlay != null ==>
            overlay.Valid() && overlay.mounted && overlay.projectId == selectedProject.value)
      && wordIndex < |Words|
    }

    constructor ()
      ensures Valid()
      ensures selectedProject == None && overlay == null
      ensures wordIndex == 0 && navClasses == NavClasses && formData == EmptyForm()
    {
      selectedProject := None;
      overlay := null;
      wordIndex := 0;
      navClasses := NavClasses;
      formData := EmptyForm();
    }

    /**
     * A project card click: the id is selected and, unless it is the empty
     * (falsy) string, the overlay mounts afresh for it, at image 0, with
     * autoplay running exactly when the catalog knows the id.
     */
    method OpenProject(projectId: string)
      requires Valid() && overlay == null
      modifies this
      ensures Valid()
      ensures selectedProject == Some(projectId)
      ensures projectId == "" ==> overlay == null
      ensures projectId != "" ==>
                && overlay != null && fresh(overlay)
                && overlay.idx == 0
                && (overlay.timerRunning <==> projectId in ImageCounts)
                && (overlay.Renders() <==> projectId in ImageCounts)
      ensures wordIndex == old(wordIndex) && navClasses == old(navClasses) && formData == old(formData)
    {
      selectedProject := Some(projectId);
      if projectId != "" {
        overlay := new Overlay(projectId);
      }
    }

    /**
     * `onClose`: the overlay, if mounted, unmounts and its interval is cleared.
     * Closing twice is the same as closing once.
     */
    method Close()
      requires Valid()
      modifies this, overlay
      ensures Valid()
      ensures selectedProject == None && overlay == null
      ensures old(overlay) != null ==>
                !old(overlay).mounted && !old(overlay).timerRunning && old(overlay).idx == old(overlay.idx)
      ensures wordIndex == old(wordIndex) && navClasses == old(navClasses) && formData == old(formData)
    {
      if overlay != null {
        overlay.Unmount();
      }
      selectedProject := None;
      overlay := null;
    }

    /**
     * A window keydown. The overlay's listener is registered whenever it is
     * mounted, even for an unknown project, and closes it on Escape only.
     */
    method KeyDown(key: string)
      requires Valid()
      modifies this, overlay
      ensures Valid()
      ensures old(overlay) != null && key == "Escape" ==>
                selectedProject == None && overlay == null &&
                !old(overlay).mounted && !old(overlay).timerRunning && old(overlay).idx == old(overlay.idx)
      ensures !(old(overlay) != null && key == "Escape") ==>
                selectedProject == old(selectedProject) && overlay == old(overlay) &&
                (overlay != null ==> unchanged(overlay))
      ensures wordIndex == old(wordIndex) && navClasses == old(navClasses) && formData == old(formData)
    {
      if overlay != null && key == "Escape" {
        Close();
      }
    }

    /**
     * A mousedown on the overlay's backdrop, which exists only when the overlay
     * renders. The card is mounted together with the backdrop, so its ref is
     * attached; the overlay closes exactly when the target is outside the card.
     */
    method BackdropMouseDown(targetInCard: bool)
      requires Valid() && overlay != null && overlay.Renders()
      modifies this, overlay
      ensures Valid()
      ensures !targetInCard ==>
                selectedProject == None && overlay == null &&
                !old(overlay).mounted && !old(overlay).timerRunning && old(overlay).idx == old(overlay.idx)
      ensures targetInCard ==>
                selectedProject == old(selectedProject) && overlay == old(overlay) && unchanged(overlay)
      ensures wordIndex == old(wordIndex) && navClasses == old(navClasses) && formData == old(formData)
    {
      if !targetInCard {
        Close();
      }
    }

    /** A firing of the open overlay's autoplay interval. */
    method AutoplayFires()
      requires Valid() && overlay != null && overlay.timerRunning
      modifies overlay`idx
      ensures Valid()
      ensures overlay.idx == Succ(old(overlay.idx), overlay.imageCount.value)
    {
      overlay.Tick();
    }

    /** A firing of the headline interval: `(i + 1) % words.length`. */
    method HeadlineTick()
      requires Valid()
      modifies this`wordIndex
      ensures Valid()
      ensures wordIndex == Succ(old(wordIndex), |Words|)
    {
      wordIndex := Succ(wordIndex, |Words|);
    }

    /** The word the headline shows. */
    function HeadlineWord(): (w: string)
      requires Valid()
      reads this, overlay
      ensures w in Words
    {
      Words[wordIndex]
    }

    /** A window scroll event at vertical position scrollY. */
    method Scroll(scrollY: real)
      requires Valid()
      modifies this`navClasses
      ensures Valid()
      ensures navClasses == AfterScroll(old(navClasses), scrollY)
    {
      navClasses := AfterScroll(navClasses, scrollY);
    }

    /** `handleFormChange`: the input called name now holds value. */
    method FormChange(name: string, value: string)
      requires Valid()
      modifies this`formData
      ensures Valid()
      ensures formData == WithField(old(formData), name, value)
    {
      formData := WithField(formData, name, value);
    }

    /** `handleSubmit`: the record is reset to four empty fields. */
    method Submit()
      requires Valid()
      modifies this`formData
      ensures Valid()
      ensures formData == EmptyForm()
    {
      formData := EmptyForm();
    }
  }
}
