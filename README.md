# Page behaviour of the Grupo Acot site, modelled in Dafny

The site's `main.js` is glue between the page and the browser. Four pieces of
it carry logic, and this project models them with the browser stripped away:

- **The contact form's submit handler** (`ContactForm`). It checks two things
  in order: all four fields `nombre`, `email`, `servicio`, `mensaje` must be
  filled, and the e-mail must match `/^[^\s@]+@[^\s@]+\.[^\s@]+$/`. Only then
  does it disable the submit button and change its text to "Enviando...".
  After 1500 ms it shows a success toast, resets the form and restores the
  button. The regular expression is modelled by what it matches
  (`EmailPattern`). That is proved equal to a direct description of the
  accepted addresses.
- **The counter ramp `animateCounter`** (`Counter`). Each 16 ms tick adds
  `target / 125` to `current`. The tick that reaches the target clamps
  `current` to it and clears the interval. Every tick writes
  `Math.floor(current) + "+"`. The model uses exact reals.
- **The toast slot `showNotification`** (`Notifications`). The document is
  reduced to the list of attached toasts. Timers become events: the close
  click, the 5000 ms auto-dismiss check and the 400 ms removal that follows
  either of them. A class `NotificationCenter` updates the slot in place. Its
  methods are proved against the step functions `ShowStep`, `CloseStep`,
  `AutoDismissStep` and `RemovalStep`.
- **One-shot triggers and thresholds** (`Watchers`, `Navigation`). There are
  two IntersectionObserver callbacks. The reveal callback adds `visible` and
  unobserves the element. The counter callback starts the counter and
  unobserves the element. The navbar carries `scrolled` exactly when
  `scrollY > 80`. A click on an in-page anchor scrolls to
  `top + pageYOffset - 80`, except that `href="#"` is ignored.

The form handler, the toast slot, the observers and the navbar each
become a class with the fields the source mutates. Its methods' `ensures`
equate the new state with a pure step function of the old state, and the
properties are proved as lemmas about those step functions. `animateCounter`
has no state of its own beyond its loop: it becomes the method
`Counter.AnimateCounter`, whose tick loop is proved against the function
`Frames`.

Elements are identified by natural numbers. A notification's `id` is the
identity of the node one call of `showNotification` creates.

## Model

| member | source | states |
|---|---|---|
| `EmailPattern.EmailRegexShape` | main.js:116-117 | The e-mail regex accepts an address exactly when: it has a single '@' with at least one character before it; it has no JavaScript whitespace anywhere; and its domain has a '.' with at least one character on each side. Both directions are proved. |
| `ContactForm.Validate` | main.js:111-120 | The verdict is "missing fields" exactly when one of the four required fields is absent or empty. It is "invalid e-mail" exactly when all four are filled and the e-mail lacks the accepted shape. It is "accepted" exactly when all are filled and the shape holds. |
| `ContactForm.RejectedSubmitChangesNothing` | main.js:111-120 | A rejected submit leaves the fields, the button and the pending timers unchanged. It shows the error matching the failed check. A missing field gives the "complete todos los campos" error whatever the e-mail holds. |
| `ContactForm.SubmitRoundTrip` | main.js:122-132 | An accepted submit from an idle form disables the button with the text "Enviando...", keeps the fields and shows nothing. Its delayed step restores the original text and the enabled state, resets the fields to their defaults, leaves no timer pending and shows the success message. |
| `ContactForm.StaysDisabledWhileSending` | main.js:122-125 | While a send is pending, a further submit, accepted or rejected, leaves the button disabled under "Enviando...". The old queue of pending timers, with the texts they captured, is a prefix of the new one. |
| `ContactForm.SendShowsOneSuccess` | main.js:127-128 | After the delayed step exactly one notification is attached, and it is the success message. |
| `ContactForm.EmptyNameRejected` | main.js:111-114 | The draft with an empty name and e-mail "a@b.com" is refused as incomplete. |
| `ContactForm.MalformedEmailRejected` | main.js:116-119 | The complete draft with e-mail "not-an-email" is refused for its e-mail. |
| `ContactForm.WellFormedDraftAccepted` | main.js:111-120 | The complete draft with e-mail "a@b.com" passes both checks. |
| `ContactForm.ContactFormController.Submit` | main.js:105-126 | The submit event moves the form to `SubmitStep` of its old state. It applies the step's notification to the shared slot and keeps the slot invariant. |
| `ContactForm.ContactFormController.SendDone` | main.js:127-132 | The 1500 ms timer moves the form to `SendDoneStep` of its old state: fields reset, button restored to the captured text and enabled. It shows the success notification. |
| `Counter.CurrentAfter` | main.js:76-80 | After any number of ticks, `current` lies between 0 and the target. |
| `Counter.AccumulatedIsProduct` | main.js:72-76 | With exact arithmetic, k executions of `current += step` give k steps. |
| `Counter.ReachesTargetExactlyAtLastTick` | main.js:72-79 | Tick k reaches the target exactly when k is at least the last tick: tick 1 for target 0, tick 125 otherwise. |
| `Counter.NextTick` | main.js:76-80 | One more tick from the unclamped value gives the next tick's value. The clamp fires exactly on the last tick. |
| `Counter.CurrentMonotone` | main.js:76-80 | `current` never decreases from one tick to a later one. |
| `Counter.DisplayMonotone` | main.js:81 | The displayed integer never decreases and never exceeds the target. |
| `Counter.AnimateCounter` | main.js:70-83 | The ramp writes 1 frame for target 0 and 125 frames otherwise. Frame k is the text of the clamped value after k ticks. The last frame is the target followed by "+". |
| `Notifications.Detach` | main.js:138 | Removing a node keeps exactly the other attached nodes and never grows the list. Removing the only attached node leaves none. |
| `Notifications.DetachAbsent` | main.js:197 | Removing a node that is not attached changes nothing. |
| `Notifications.DetachIdempotent` | main.js:197 | A second removal of the same node is a no-op. |
| `Notifications.ShowStep` | main.js:136-138 | Showing gives the new node a fresh identity and keeps the pending removals. From a slot with at most one attached node, exactly the new notification is attached afterwards. |
| `Notifications.CloseStep` | main.js:195-198 | A close click schedules a removal of its node unconditionally and changes nothing else. |
| `Notifications.AutoDismissStep` | main.js:200-205 | The 5000 ms timer schedules a removal only while its node is attached. Otherwise the state is unchanged. |
| `Notifications.RemovalStep` | main.js:197 | The earliest 400 ms timer fires. Its node is detached afterwards and the at-most-one invariant is kept. |
| `Notifications.FlushRemovals` | main.js:203 | Once all pending removals have fired, a node stays attached exactly when it was attached and no removal was scheduled for it. |
| `Notifications.DismissRace` | main.js:195-204 | After a show, a close click and an auto-dismiss, in either order, leave no notification attached once the removals fire. |
| `Notifications.LateAutoDismissIsNoOp` | main.js:200-201 | An auto-dismiss that fires after a close click has removed the node finds it detached and changes nothing. |
| `Notifications.StaleRemovalKeepsNewer` | main.js:137-138 | Removals still pending for replaced notifications never remove the notification shown after them. |
| `Notifications.NotificationCenter.Show` | main.js:136-138 | Showing updates the slot as `ShowStep` does. It keeps at most one node attached and leaves exactly the new node attached. |
| `Notifications.NotificationCenter.CloseClicked` | main.js:195-198 | A close click updates the slot as `CloseStep` does. |
| `Notifications.NotificationCenter.AutoDismissFires` | main.js:200-205 | The auto-dismiss timer updates the slot as `AutoDismissStep` does. |
| `Notifications.NotificationCenter.RemovalFires` | main.js:197 | A removal timer updates the slot as `RemovalStep` does and keeps the invariant. |
| `Watchers.Deliver` | main.js:42-47 | After a batch, the triggered set has gained, and the observed set has lost, exactly the targets of the batch's intersecting entries. |
| `Watchers.UnobservedNeverTriggers` | main.js:41-46 | The callback acts on every intersecting entry it receives, with no check of its own. Once an element is unobserved and the browser reports only observed elements, no later batch makes the callback act on it. |
| `Watchers.TriggersAtMostOnce` | main.js:41-68 | Suppose every batch reports only observed elements. Then over any sequence of batches the callback acts on each element in at most one batch, however often it re-enters the viewport. The bound rests on `unobserve`, not on a guard in the callback. |
| `Watchers.TriggeredNeverCleared` | main.js:44 | No sequence of batches clears a trigger flag. |
| `Watchers.RevealObserver.OnIntersections` | main.js:41-47 | The reveal callback updates `visible` and the observed set exactly as `Deliver` does. |
| `Watchers.CounterObserver.OnIntersections` | main.js:57-65 | The counter callback updates the observed and started sets as `Deliver` does. Each intersecting counter ends up showing its `data-count` value followed by "+". Other counters' texts are unchanged. |
| `Navigation.ScrolledTracksLatest` | main.js:6-12 | While the scroll listener is installed, `scrolled` is set exactly when the latest scroll position is beyond 80. |
| `Navigation.PresetScrolledKept` | main.js:5 | A navbar whose markup already carries `scrolled` never gets a listener and keeps the class. |
| `Navigation.Navbar.OnScroll` | main.js:6-12 | A scroll event updates the flag as one step of `ScrolledAfter`. |
| `Navigation.OnAnchorClick` | main.js:86-99 | `href="#"`, or an id that matches no element, gives the browser's default navigation. Otherwise the handler requests a smooth scroll to the target's document top minus 80, so that the target would sit 80 pixels below the top of the viewport, whatever the scroll position was at the click. |

## Left out

- The hamburger menu (main.js:19-36) is not modelled. It toggles classes on clicks. Its outside-click test depends on DOM containment.
- Real time is not modelled. `setInterval`, `setTimeout` and `requestAnimationFrame` are not; each timer firing is an event method or step function. The slide-in and slide-out `transform` changes are presentation and are not modelled.
- Inline styles, the SVG icons and the `innerHTML` of a notification (main.js:140-187) are not modelled. A notification keeps only its message and its kind.
- IEEE doubles are not modelled. The ramp is exact: `target / 125` is added with no rounding. In JavaScript the sum may fall short after 125 ticks and clamp on a 126th tick. Nothing here speaks about that.
- Counter.Decimal: prints every natural number in plain digits. JavaScript switches to exponent notation from 10^21 on, so a counter target that large would be shown differently.
- `parseInt` is not modelled. A `data-count` that gives `NaN` or a negative number is not covered: counter targets are natural numbers.
- Counter.AnimateCounter: runs the whole ramp at once and returns the texts written on each tick. Real ticks interleave with other events. Only the counter's own element is written, so the texts and their order are unchanged.
- Watchers.CounterObserver.OnIntersections: starts each animation and runs it to its end inside the callback. It states the final text, not the time at which the text appears.
- Watchers.TriggersAtMostOnce: counts the batches in which the callback acts on an element. One batch that lists the same element as intersecting twice would start its counter twice in the source. Both runs end on the same text.
- IntersectionObserver geometry is not modelled. The thresholds 0.15 and 0.5 and the -50px bottom margin are recorded as constants; the browser decides `isIntersecting`.
- Navigation.OnAnchorClick: gives the `top` passed to `window.scrollTo`. The browser clamps it to the page's scroll range, so a target near the start or the end of the page ends up closer to or farther from the top than 80 pixels. That clamping is not modelled.
- `document.querySelector(href)` is modelled as a lookup of the id after the '#'. Compound selectors, and hrefs that are invalid selectors (which make the handler throw), are not modelled.
- `Object.fromEntries(new FormData(form))` is modelled as a map from field names to strings. Only the last value of a repeated field name is kept, as in the source. File fields are not modelled.
- A submit event while a send is pending is modelled: the second timer captures "Enviando..." as the original text. No lemma covers that state. The disabled button keeps users from submitting then.
