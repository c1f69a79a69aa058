# Portfolio interaction state, modelled in Dafny

This project models the interaction state of a single-page portfolio site:

- the **project detail overlay** (`src/components/ProjectDetails.tsx`). It holds a
  carousel index over the project's images. The index starts at 0 on mount, and the
  "next" and "previous" arrows, the position dots and a 3500 ms autoplay interval
  change it. The overlay closes on Escape, on a mousedown outside its card, or from
  its close button. An unknown project id renders nothing and schedules no interval.
- the **page component** (`src/App.tsx`). It holds the one-way "in view" flag of the
  reveal helper and the class attribute `Reveal` builds from it. It also holds the
  headline word rotating every 1800 ms, the navbar's `scrolled-dark` class and the
  contact-form record.

Browser callbacks become method calls:

- a button click, an interval firing, a key or mouse event, a scroll event and an
  intersection-observer callback are each one call on the object concerned;
- the page (`App.Page`) owns the overlay instance (`ProjectDetails.Overlay`). The
  instance is created when a project is selected and unmounted by `onClose`;
- the observer (`Reveal.InView`) keeps a ghost history of what each callback
  reported. Its invariant ties the flag to that history.

Files:

- `cyclic.dfy` (module `Cyclic`): the wrap-around arithmetic that the carousel and
  the headline share, with its cycle laws.
- `project_catalog.dfy` (module `ProjectCatalog`): the image count of each catalog
  entry.
- `project_details.dfy` (module `ProjectDetails`): the overlay.
- `reveal.dfy` (module `Reveal`): the observer and the class attribute.
- `app.dfy` (module `App`): the page.
- `scenarios.dfy` (module `Scenarios`): client sequences that use only the contracts
  above.

Three points where the code's behaviour is easy to misread:

- The code resets the carousel index only by remounting the overlay. `idx` is
  component state, and the autoplay effect depends on the image count, not on the
  project id. The page only ever mounts the overlay afresh: it is unmounted on close,
  and the project cards are plain click targets under its full-screen backdrop. So
  `App.Page.OpenProject` opens only while no overlay is mounted.
- The observer sets the flag on the callback's `isIntersecting`, not on a visible
  ratio compared with the threshold. It reads only the first entry of each batch.
  It stays connected after the flag is set, until unmount.
- The Escape listener is registered before the missing-project check. So Escape also
  closes an overlay whose id is unknown.

## Model

| member | source | states |
|---|---|---|
| `Cyclic.Succ` | src/components/ProjectDetails.tsx:257 | `(p + 1) % n` stays in [0, n), moves p to p + 1 below the end and maps n − 1 to 0 |
| `Cyclic.Pred` | src/components/ProjectDetails.tsx:258 | `(p - 1 + n) % n` stays in [0, n), moves p to p − 1 above 0 and maps 0 to n − 1 (the `+ n` term) |
| `Cyclic.SuccThenPred` | src/components/ProjectDetails.tsx:257-258 | next then prev, and prev then next, both return the original index |
| `Cyclic.AdvanceAdd` | src/components/ProjectDetails.tsx:257 | a forward steps followed by b forward steps are a + b forward steps |
| `Cyclic.RetreatAdd` | src/components/ProjectDetails.tsx:258 | a backward steps followed by b backward steps are a + b backward steps |
| `Cyclic.AdvanceBelowEnd` | src/components/ProjectDetails.tsx:257 | while i + k < n, k forward steps from i reach exactly i + k |
| `Cyclic.RetreatAboveStart` | src/components/ProjectDetails.tsx:258 | while k ≤ i, k backward steps from i reach exactly i − k |
| `Cyclic.AdvanceFullCycle` | src/components/ProjectDetails.tsx:257 | n applications of next from any index return to it |
| `Cyclic.RetreatFullCycle` | src/components/ProjectDetails.tsx:258 | n applications of prev from any index return to it |
| `Cyclic.RetreatUndoesAdvance` | src/components/ProjectDetails.tsx:257-258 | k nexts followed by k prevs return to the starting index |
| `ProjectCatalog.Lookup` | src/components/ProjectDetails.tsx:20-238 | an id is found exactly when the catalog holds it, and every entry found has at least one image |
| `ProjectDetails.DotStates` | src/components/ProjectDetails.tsx:319-323 | one dot per image; dot i is highlighted exactly when i equals the current index |
| `ProjectDetails.NoDotActive` | src/components/ProjectDetails.tsx:319-323 | with an index outside the dots, none is highlighted |
| `ProjectDetails.ExactlyOneDotActive` | src/components/ProjectDetails.tsx:319-323 | with a valid index, exactly one dot is highlighted |
| `ProjectDetails.Overlay.constructor` | src/components/ProjectDetails.tsx:236-255 | on mount: idx is 0; the overlay renders exactly for a catalog id; the interval is scheduled exactly then |
| `ProjectDetails.Overlay.Next` | src/components/ProjectDetails.tsx:257 | the next arrow sets idx to `Succ(idx, n)` and keeps idx in [0, n) |
| `ProjectDetails.Overlay.Prev` | src/components/ProjectDetails.tsx:258 | the previous arrow sets idx to `Pred(idx, n)` and keeps idx in [0, n) |
| `ProjectDetails.Overlay.Jump` | src/components/ProjectDetails.tsx:319-322 | clicking dot i, for i in [0, n), sets idx to exactly i |
| `ProjectDetails.Overlay.Tick` | src/components/ProjectDetails.tsx:244 | an autoplay firing performs the same transition as Next; it needs a scheduled interval |
| `ProjectDetails.Overlay.Dots` | src/components/ProjectDetails.tsx:319-323 | the rendered dots number n; the one at idx is highlighted and no other is |
| `ProjectDetails.Overlay.Unmount` | src/components/ProjectDetails.tsx:245 | the effect cleanup clears the interval, so no later firing can reach the unmounted instance |
| `Reveal.EverIntersectedIff` | src/App.tsx:15-20 | the flag computed from a history is true exactly when some observation reported an intersection |
| `Reveal.EverIntersectedMonotone` | src/App.tsx:20 | later observations, intersecting or not, never clear the flag |
| `Reveal.FirstIntersectionReveals` | src/App.tsx:15-20 | if observation k is the first intersecting one, the flag is false through step k and true at every later step |
| `Reveal.InView.constructor` | src/App.tsx:14-18 | the flag starts false; the observer is connected only when an element is attached |
| `Reveal.InView.Observe` | src/App.tsx:19-21 | a callback reads only its batch's first entry; it sets the flag if that entry intersects and otherwise leaves it unchanged |
| `Reveal.InView.Disconnect` | src/App.tsx:23 | the effect cleanup disconnects the observer and keeps the flag |
| `Reveal.EffectClass` | src/App.tsx:30-37 | "up", "left", "right" and "flip" map to "reveal-" plus the effect; any other effect maps to "reveal-up" |
| `Reveal.ClassAttr` | src/App.tsx:37 | the template string, read as a class list, is the effect class, then "in" exactly when in view, then the caller's classes |
| `Reveal.InClassIffRevealed` | src/App.tsx:28-37 | with the default empty `className`, the "in" class is present exactly when `inView` is true |
| `App.EmptyForm` | src/App.tsx:281 | the record has exactly the keys name, email, subject and message, all "" |
| `App.WithField` | src/App.tsx:333 | after a change, the named key holds the new value and every other key keeps its value |
| `App.WithFieldKeepsFields` | src/App.tsx:333 | a change from one of the form's inputs (name, email, message) keeps exactly the four keys |
| `App.AfterScroll` | src/App.tsx:302-306 | the navbar has "scrolled-dark" exactly when scrollY > 80; no other class changes |
| `App.AfterScrollForgetsHistory` | src/App.tsx:302-306 | the navbar's classes depend only on the latest scroll position |
| `App.ScrollBoundary` | src/App.tsx:304-305 | at exactly 80 the navbar is not dark; at 80.5 it is |
| `App.HeadlineFullCycle` | src/App.tsx:283-297 | after `words.length` rotations the headline index returns to where it started |
| `App.Page.constructor` | src/App.tsx:279-284 | no project selected, headline at word 0, navbar with its rendered classes, empty form |
| `App.Page.OpenProject` | src/App.tsx:350-364 | a card click selects the id; a non-empty id mounts a fresh overlay at index 0, with autoplay exactly for a catalog id, and the empty (falsy) id mounts nothing; nothing else changes |
| `App.Page.Close` | src/App.tsx:364 | `onClose` clears the selection and unmounts the overlay, clearing its interval; a second close changes nothing |
| `App.Page.KeyDown` | src/components/ProjectDetails.tsx:249-253 | a mounted overlay, known project or not, closes if and only if the key is "Escape"; any other key changes nothing |
| `App.Page.BackdropMouseDown` | src/components/ProjectDetails.tsx:260-273 | a backdrop mousedown closes the overlay if and only if the target is outside the card |
| `App.Page.AutoplayFires` | src/components/ProjectDetails.tsx:242-246 | the interval fires only for a mounted, rendered overlay and advances it like Next |
| `App.Page.HeadlineTick` | src/App.tsx:296-299 | the headline index becomes `(i + 1) % words.length` and stays in range |
| `App.Page.HeadlineWord` | src/App.tsx:438 | the headline shows one of the four words |
| `App.Page.Scroll` | src/App.tsx:301-309 | a scroll event sets the navbar classes to `AfterScroll` of the old ones |
| `App.Page.FormChange` | src/App.tsx:333 | the record becomes `WithField` of the old record for the input's name and value |
| `App.Page.Submit` | src/App.tsx:334-338 | submit resets the record to the four empty fields |

## Left out

- The 3D desk scene with its canvas and orbit controls (src/App.tsx:44-160). It is float geometry drawn by foreign rendering libraries.
- The mouse tilt and parallax CSS-variable math (src/App.tsx:246-258, 311-331). It is cosmetic floating-point DOM mutation.
- The timing of `setInterval` and `clearInterval`, and the registration and removal of window listeners. These are browser services. Their periods (3500 ms for the carousel, 1800 ms for the headline) are not modelled; each firing or event is one method call.
- `alert`, `preventDefault`, `scrollIntoView` and `document.querySelector`. These are DOM I/O. The `.navbar` element always exists on this page, so the model keeps its class set and not the lookup.
- The mobile menu toggle and `scrollToSection` (src/App.tsx:279, 339-342, 393). They are navigation helpers outside the interaction core.
- The catalog's titles, texts, links and image URLs. Only each entry's image count is kept, with the fact that it is positive.
- The observer's threshold (0.2 or 0.15) and the browser's visibility computation. The model takes the `isIntersecting` value each callback reports as its input.
- `App.Page.OpenProject` requires that no overlay is mounted. A projectId change on a mounted overlay is not modelled, because the page never produces one; with it, the code would keep `idx` unchanged.
- `ProjectCatalog.Lookup` treats the catalog as a plain dictionary, so an inherited JavaScript property name such as "toString", "constructor" or "__proto__" counts as unknown and the overlay renders nothing. In the code such a name yields a truthy non-project, and `project?.images.length` (src/components/ProjectDetails.tsx:246) throws during render. No call site passes such a name: the cards pass the nine catalog ids (src/App.tsx:350-358).
- `Reveal.EffectClass` treats the effect map as a plain dictionary. An inherited JavaScript property name such as "toString" would not fall back to "reveal-up" in the code. Every call site passes one of the four known effects, and the `effect = "up"` default gives "reveal-up" like the fallback.
- `App.Page.FormChange` applies each change to the current record. The code spreads the `formData` of the last render, so two changes within one render would keep only the second. Events here are handled one at a time.
- The card's `stopPropagation` on mousedown (src/components/ProjectDetails.tsx:273). It is folded into `App.Page.BackdropMouseDown`: a target inside the card never closes the overlay. The card's `contains` test needs its ref, which is always attached while the backdrop is rendered, so the model leaves the ref out and closes exactly when the target is outside the card.
- `App.Page.Submit` models `handleSubmit` (src/App.tsx:334-338) and runs on every call. In the page, the browser calls that handler only after its built-in form validation passes: the form has no `noValidate` (src/App.tsx:717), the name, email and message inputs are `required` (src/App.tsx:727, 739, 751), and the email input has `type="email"` (src/App.tsx:733). Until then the record keeps what was typed. The model does not gate on this check: the browser's email syntax rule is not modelled.
