# neoexample page script: slider, contact form and footer year

This project is a Dafny model of the interactive core of the site's
`script.js`. It covers four parts:

- **The hero slider.** `Slider.HeroSlider` is a class that holds:
  - the current slide index;
  - the `active` flag of every slide and dot, as arrays;
  - the auto-advance timer;
  - the touch coordinates.

  Its methods are the page's own functions (`initSlider`, `startAutoSlide`,
  `goToSlide`, `nextSlide`, `prevSlide`, `handleSwipe`) and its event
  listeners: button and dot clicks, arrow keys, hover, touch, and the
  interval firing.

  The browser's timers are modelled as the set of interval handles still
  running. `setInterval` hands out a fresh handle, and `clearInterval`
  removes one. On top of that model, the invariant `Valid` proves that at
  most one auto-advance interval ever runs.

  The index arithmetic lives in `SlideIndex`:
  - JavaScript's truncating `%`;
  - the wrap of `(n + total) % total`;
  - next and previous;
  - the effect of one navigation on a collection of flags.

  The swipe classification lives in `Swipe`.
- **The phone sanitiser** (`Phone`). It keeps the allowed characters and
  cuts the value to 15. The module also holds the submit check's phone
  pattern.
- **The contact-form check** (`ContactForm.Validate`). It has:
  - the loop over the required fields;
  - the e-mail pattern (`Email`, with a direct scan proved equal to the
    pattern);
  - the phone pattern;
  - the order in which a later failing check overwrites the message.
- **The footer year stamp** (`FooterYear`). A footer paragraph that
  mentions 2023 or 2024 gets its first four-digit run replaced by the
  current year, which is a parameter.

A page with no `.slide` elements is modelled as the script behaves on
it. `initSlider` returns early and no timer starts. Any handler that
reaches `goToSlide` throws at line 107 before it changes anything, so the
handler methods return `ok == false` and leave the state unchanged.

## Model

| member | source | states |
|---|---|---|
| SlideIndex.JsRem | script.js:110 | JavaScript's `%`: the remainder is smaller than the divisor in magnitude, has the dividend's sign, differs from the dividend by a multiple of the divisor (so it is the truncated remainder), and agrees with the mathematical remainder for non-negative operands |
| SlideIndex.JsRemDiffersOnNegative | script.js:110 | for a negative dividend the truncating `%` differs from the Euclidean one (-1 % 3 is -1, not 2) |
| SlideIndex.WrapIndex | script.js:110 | `(n + total) % total` is a valid index; it keeps an in-range `n`, maps -1 to the last slide and `total` to the first |
| SlideIndex.NextIndex | script.js:117-119 | one step forward, from the last slide back to the first |
| SlideIndex.PrevIndex | script.js:122-124 | one step back, from the first slide round to the last |
| SlideIndex.NextPrevInverse | script.js:117-124 | previous undoes next and next undoes previous |
| SlideIndex.AdvanceBy | script.js:100-119 | the slide shown after k calls of `nextSlide` from slide c is always a valid index |
| SlideIndex.AdvanceIsModular | script.js:100-119 | k auto-advance ticks from slide c land on (c + k) mod total |
| SlideIndex.FullRoundReturns | script.js:100-119 | after as many ticks as there are slides the slider is back where it started |
| SlideIndex.MarksOnlyIffActiveSet | script.js:107-113 | "only the current element is active" is the same as the active set being that index (or empty when it has no element) |
| SlideIndex.Retarget | script.js:107-113 | one `goToSlide` on a collection of flags: the target gets 'active', the old index loses it, nothing else changes, and a missing dot is skipped |
| SlideIndex.RetargetKeepsSingleMark | script.js:106-114 | if only the old index was active, afterwards only the target is |
| Swipe.Classify | script.js:165-179 | a swipe advances when the finger moved more than 50 px left, goes back when it moved more than 50 px right, and is ignored within 50 px; both tests never hold at once |
| Swipe.ClassifyIsTranslationInvariant | script.js:168-174 | only the distance moved matters, not where the touch started |
| Swipe.ClassifyMirror | script.js:168-174 | mirroring the gesture swaps advancing and going back |
| Slider.HeroSlider.Create | script.js:58-97 | setup: index 0, slide 0 and dot 0 activated, one interval running and pause listeners attached if there is a container; with no slides nothing is activated and no interval runs |
| Slider.HeroSlider.InitSlider | script.js:67-97 | `initSlider`: the early return for no slides, the activation of slide and dot 0, the interval start and the conditional pause listeners |
| Slider.HeroSlider.ClearInterval | script.js:101 | `clearInterval(h)` stops interval h if it runs and touches no other interval |
| Slider.HeroSlider.SetInterval | script.js:102 | `setInterval` starts one interval under a handle never used before |
| Slider.HeroSlider.StartAutoSlide | script.js:100-103 | afterwards exactly one interval runs, and it is a new one started by this call |
| Slider.HeroSlider.GoToSlide | script.js:106-114 | the index becomes the wrapped target, only the old and the new slide and dot flags change, and a single active slide stays single |
| Slider.HeroSlider.NextSlide | script.js:117-119 | moves to the next index, wrapping |
| Slider.HeroSlider.PrevSlide | script.js:122-124 | moves to the previous index, wrapping |
| Slider.HeroSlider.Tick | script.js:102 | a firing interval advances one slide and leaves the timers as they were |
| Slider.HeroSlider.ClickNext | script.js:127-132 | advances one slide and restarts the timer (the one interval left running is a new one); throws without effect when there are no slides |
| Slider.HeroSlider.ClickPrev | script.js:134-139 | goes back one slide and restarts the timer (the one interval left running is a new one); throws without effect when there are no slides |
| Slider.HeroSlider.ClickDot | script.js:142-147 | dot i shows slide i (i mod N past the last slide) and restarts the timer with a new interval |
| Slider.HeroSlider.KeyDown | script.js:182-188 | ArrowLeft and ArrowRight act as the previous and next buttons when those exist, moving one slide and restarting the timer with a new interval; any other key changes nothing |
| Slider.HeroSlider.MouseEnter | script.js:80-82 | hovering stops the interval when the pause listeners are attached |
| Slider.HeroSlider.MouseLeave | script.js:84-86 | leaving starts exactly one new interval when the pause listeners are attached |
| Slider.HeroSlider.TouchStart | script.js:89-91 | records the start position and pauses the interval |
| Slider.HeroSlider.HandleSwipe | script.js:165-179 | moves according to `Classify`, updating only the old and new slide and dot flags, and restarts the timer with a new interval, or changes nothing for a short swipe |
| Slider.HeroSlider.TouchEnd | script.js:93-95 | the swipe listener runs first (line 159): a long swipe moves one slide, changing only the old and new slide and dot flags; then the pause listener restarts the interval with a new one; a short swipe without pause listeners leaves the timers as they were |
| Slider.ThreeNextClicks | script.js:127-132 | on three slides the next button visits 1, 2 and wraps to 0 |
| Slider.DoubleStartThenTick | script.js:100-103 | starting twice still leaves one interval, and its tick moves one slide |
| Slider.HoverPausesAutoAdvance | script.js:80-86 | while hovering no interval runs; leaving starts one |
| Slider.SwipeScenario | script.js:155-179 | a 60 px left swipe advances, a 20 px one does not |
| Slider.NoSlidesStaysInert | script.js:67-68 | with no slides no interval starts and the dots keep the HTML's flags |
| Text.LeadingSpaces | script.js:232 | the length of the whitespace run that starts the value |
| Text.TrailingSpaces | script.js:232 | the length of the whitespace run that ends the value |
| Text.Trim | script.js:232 | `trim()` leaves a value that neither starts nor ends with whitespace |
| Text.TrimIsSlice | script.js:232 | `trim()` cuts off only whitespace: it keeps the piece of the value that starts after the leading whitespace run, and everything before and after that piece is whitespace |
| ContactForm.IsBlank | script.js:232 | the test `!field.value.trim()` holds exactly when the value is all whitespace (or empty) |
| Text.TrimEmptyIffAllSpace | script.js:232 | a value trims to empty exactly when it is all whitespace |
| Phone.KeepPhoneChars | script.js:211 | the filtered value holds only digits, `+`, `-`, `(`, `)` and space, and is no longer than the input |
| Phone.KeepPhoneCharsCounts | script.js:211 | every allowed character is kept as often as it occurs and every other one is dropped |
| Phone.KeepPhoneCharsAppend | script.js:211 | filtering a concatenation filters each part |
| Phone.KeepPhoneCharsFixes | script.js:211 | filtering changes nothing exactly when the value holds only allowed characters |
| Phone.Sanitize | script.js:209-216 | the sanitised value holds only allowed characters, is a prefix of the filtered value and has its length capped at 15 |
| Phone.SanitizeIdempotent | script.js:209-216 | a second `input` event leaves the sanitised value unchanged |
| Phone.SanitizeKeepsValidPhone | script.js:209-216 | a value the submit check accepts passes the sanitiser untouched |
| Phone.MatchesPhonePattern | script.js:255-256 | a value that matches `^[0-9+\-() ]{10,15}$` is left as it is by the `input` filter |
| Phone.SanitizedPhoneAcceptedIff | script.js:255 | a sanitised value passes the phone pattern exactly when it has at least 10 characters |
| Email.FirstIndexOf | script.js:244 | the first position of a character, or none when it does not occur |
| Email.IsEmail | script.js:244-245 | an accepted address has at least five characters and no whitespace anywhere |
| Email.IsEmailIffPattern | script.js:244 | the scan accepts exactly the strings that `^[^\s@]+@[^\s@]+\.[^\s@]+$` matches |
| Email.PatternFixesAt | script.js:244 | any split of the value into local part, '@', domain, '.', suffix makes the scan accept |
| ContactForm.Validate | script.js:226-262 | the form is valid exactly when no required field is blank and neither a non-empty e-mail nor a non-empty phone fails its pattern; the message is the phone one, else the e-mail one, else the required-fields one |
| ContactForm.RejectedIff | script.js:231-261 | the form is rejected exactly when a required field is all whitespace, a non-empty e-mail does not match, or a non-empty phone is not 10 to 15 allowed characters |
| ContactForm.EmptyValuesSkipFormatChecks | script.js:243-254 | an empty e-mail or phone value is never checked against its pattern |
| ContactForm.SanitizedPhoneRejectedIff | script.js:209-261 | a sanitised phone value fails the submit check exactly when it is non-empty and shorter than 10 characters |
| FooterYear.Includes | script.js:382 | `includes` finds the empty pattern in any string and never a pattern longer than the string |
| FooterYear.IncludesIff | script.js:382 | `includes` finds a pattern exactly when it occurs somewhere |
| FooterYear.FirstDigitRun | script.js:383 | `/\d{4}/` matches at the leftmost run of four digits, or nowhere |
| FooterYear.DigitChar | script.js:383 | a digit value prints as a decimal digit character |
| FooterYear.DecimalString | script.js:383 | the year prints as a non-empty run of digits |
| FooterYear.DecimalRoundTrip | script.js:383 | reading the printed year back gives the year |
| FooterYear.FourDigitYear | script.js:383 | a year from 1000 to 9999 prints as four digits |
| FooterYear.StampYear | script.js:381-385 | a paragraph that mentions 2023 or 2024 gets its first four digits replaced by the year, and everything before and after them is kept; any other paragraph is untouched |
| FooterYear.StampYearIdempotent | script.js:381-385 | stamping twice with a four-digit year gives the same text as stamping once |
| FooterYear.StampYearExample | script.js:381-385 | "(c) 2024 Neo" stamped with 2026 reads "(c) 2026 Neo" |

## Left out

- The mobile menu, the scroll effects, the enrol buttons, the form reset and success alert, and the `#currentYear` span are not part of this model.
- DOM side effects with no effect on the modelled state are left out: border colours, the `alert` text, `preventDefault` and `FormData`.
- Timing is left out. An interval is either running or stopped, and the 5000 ms period is not modelled. A tick is an operation the environment may call for any running interval.
- `Date` is left out: the current year is a parameter of `FooterYear.StampYear`.
- `Text.IsSpace` counts tab, line feed, vertical tab, form feed, carriage return, space and no-break space as whitespace. JavaScript's `\s` and `trim` also count the other Unicode space separators, the line and paragraph separators and the byte-order mark.
- Strings are sequences of characters. JavaScript's `length` counts UTF-16 code units, which differs for characters outside the Basic Multilingual Plane.
- `FooterYear.StampYear` takes the paragraph's text and markup as two strings. It does not model how `innerHTML` is parsed, and it assumes the first four-digit run in the markup is the one the page replaces.
- Touch positions (`screenX`) are whole numbers. Browsers may report fractional CSS pixels.
- Each listener attachment is a flag or a constant of the slider: `hasPrevButton`, `hasNextButton`, `hasContainer` and `pauseListeners`. The model does not simulate the browser's event dispatch. The order of the two `touchend` listeners is built into `Slider.HeroSlider.TouchEnd`.
