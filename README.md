# Theme switch, FAQ disclosure and registration-form validation

A model of the browser script `script.js` of a small static web page. The script does three things:

- **Registration form.** The submit handler `validateForm` suppresses the browser's own submission. It clears the four error slots and the success slot, then runs four independent checks:
  - the name, trimmed, is not empty;
  - the email, trimmed, is not empty and the raw value matches `/^[^\s@]+@[^\s@]+\.[^\s@]+$/`;
  - the raw password has at least six characters;
  - the confirmation equals the password exactly.

  Each failed check writes a fixed message. If no check failed, the handler shows "Registration successful!" and resets the form.
- **Theme switch.** A click toggles dark mode, swaps the sun/moon icon and saves `"dark"` or `"light"` under the storage key `"theme"`. On page load, a saved `"dark"` turns dark mode on.
- **FAQ.** A click on a question flips the `open` flag of its answer.

Where the script changes state, the model uses classes: `Registration.RegistrationForm`, `Theme.ThemeSwitch` and `Faq.FaqSection`. Each class method is proved against a pure function on the page's values: `Registration.Submitted`, `Theme.Toggled` / `Theme.Loaded` and `Faq.Flipped`. The lemmas state the promised properties about those functions.

Whitespace, meaning the `\s` class and what `trim()` strips, is `Text.IsSpace`. It covers the WhiteSpace code points of section 12.2 of ECMA-262 (2024 edition), including general category Zs, and the LineTerminator code points of section 12.3. The email pattern has two forms:
- `EmailPattern.MatchesPattern` is the reference: the string splits as L "@" D "." T, where L, D and T are non-empty runs containing no whitespace and no '@'.
- `EmailPattern.TestEmail` is the form the handler runs.

`EmailPattern.TestEmailIffPattern` proves the two agree on every string.

The model assumes the following about values that come from the page's HTML, which is not part of this model:
- the default values that `form.reset()` restores are empty strings (`Registration.RESET_INPUTS`);
- the page starts in light mode with the moon icon (`Theme.Fresh`);
- every FAQ answer starts closed (`Faq.FaqSection.constructor`);
- each FAQ question's parent element holds its own `.faq-answer`, distinct from every other question's, so question i toggles answer i (`Faq.Flipped`, `Faq.FaqSection.ToggleAnswer`).

`validateForm` does the clearing, the checks and the reset inside the handler itself. `RegistrationForm.ValidateForm` does this in place, and the pure function `Submitted` is its specification.

A missing saved theme, or any saved value other than `"dark"`, leaves the page as loaded (`Theme.Loaded`). Under the `Theme.Fresh` assumption that page is in light mode.

## Model

| member | source | states |
|---|---|---|
| Text.Trim | script.js:93 | `String.prototype.trim`; its own contract bounds the result by the input's length, and TrimStrips and TrimEmptyIffAllSpace characterise it fully |
| Text.TrimStartStrips | script.js:93 | the leading-whitespace strip leaves a suffix that does not start with whitespace, and it removes only whitespace |
| Text.TrimEndStrips | script.js:93 | the trailing-whitespace strip leaves a prefix that does not end with whitespace, and it removes only whitespace |
| Text.TrimStrips | script.js:93 | `trim()` yields an infix of the value with only whitespace on either side, and the result neither starts nor ends with whitespace |
| Text.TrimEmptyIffAllSpace | script.js:93 | `value.trim() === ''` holds exactly when every character of the value is whitespace |
| EmailPattern.MatchesPattern | script.js:75 | the anchored pattern as a reference: some '@' and later '.' split the string into three runs without whitespace or '@'; its contract states that a match has at least five characters and starts and ends with such a run character |
| EmailPattern.TestEmail | script.js:102 | `emailRegex.test` as the handler runs it, splitting at the first '@'; its contract states the same length and end-character facts, and TestEmailIffPattern proves it equal to MatchesPattern |
| EmailPattern.PartsMatch | script.js:75 | L + "@" + D + "." + T matches whenever L, D and T are non-empty runs without whitespace or '@' |
| EmailPattern.MatchShape | script.js:75 | a matching string contains no whitespace and exactly one '@' |
| EmailPattern.TestEmailIffPattern | script.js:75 | the test the handler runs accepts exactly the strings that split as L@D.T with well-formed parts (both directions) |
| Registration.FieldErrors | script.js:83-117 | starting from cleared slots: name error iff the name is all whitespace; "Email is required." iff the email is all whitespace, else "Please enter a valid email address." iff it fails the pattern; password error iff the raw length is below 6; confirm error iff the confirmation differs from the password; the success slot stays empty |
| Registration.ValidIffAcceptsAll | script.js:90-120 | `isFormValid` (no error slot holds text) holds exactly when all four rules accept the inputs |
| Registration.Submitted | script.js:82-123 | after one pass the error slots are those of FieldErrors whatever was shown before; the success message appears and the inputs are reset iff every rule passes; otherwise the inputs are unchanged and the success slot is empty |
| Registration.AllErrorsAtOnce | script.js:92-117 | blank name, blank email, short password and mismatched confirmation produce all four messages in one pass and no success |
| Registration.ResubmitAfterSuccess | script.js:83-87 | submitting again after a successful pass gives the same messages as a first empty submission: name, email and password required, confirmation matching |
| Registration.MalformedEmailRejected | script.js:99-105 | a non-blank email with whitespace anywhere (untrimmed) or with a second '@' gets "Please enter a valid email address." |
| Registration.NoAtRejected | script.js:102-104 | the email "abc" gets "Please enter a valid email address." |
| Registration.RegistrationForm.Reset | script.js:122 | `form.reset()` returns every input to its empty default and leaves the message slots alone |
| Registration.RegistrationForm.ValidateForm | script.js:78-124 | the handler leaves the form in the state Submitted gives for the old inputs: success is shown iff no error slot holds text, and the inputs are reset iff the form was valid; the default action is always prevented |
| Theme.GetItem | script.js:30 | `localStorage.getItem("theme")`: a value exactly when the key is present, and then the stored string; none (null) when it is absent |
| Theme.Toggled | script.js:12-26 | a click flips dark mode, shows the sun iff the new mode is dark, stores "dark" iff the new mode is dark and "light" otherwise, and changes no other store key |
| Theme.Loaded | script.js:29-36 | on load only a stored value equal to "dark" turns on dark mode and the sun icon; any other or absent value leaves the page unchanged; the store is never written |
| Theme.ToggleTwice | script.js:12-26 | two clicks restore the mode, show the icon that mode calls for (so the original icon whenever icon and mode matched), and the store then holds the literal of the original mode even if it was empty |
| Theme.LoadKeepsIconMatched | script.js:31-35 | loading never leaves the icon out of step with the mode; with Fresh and Toggled, every reachable page shows the sun exactly in dark mode |
| Theme.ReloadKeepsToggledTheme | script.js:20-35 | a fresh page loaded over the store a click left comes up in the mode and with the icon that click chose |
| Theme.LoadIdempotent | script.js:31-35 | applying the saved theme twice is the same as applying it once |
| Theme.ThemeSwitch.Toggle | script.js:12-26 | the click handler changes the page exactly as Toggled says |
| Theme.ThemeSwitch.ApplySavedTheme | script.js:29-36 | the load handler changes the page exactly as Loaded says |
| Faq.Flipped | script.js:51 | a click on question i flips answer i's open flag and leaves every other answer's flag unchanged |
| Faq.FlipTwice | script.js:51 | clicking the same question twice restores its answer |
| Faq.FlipsCommute | script.js:44-52 | answers are independent: clicks on two questions give the same flags in either order |
| Faq.FaqSection.ToggleAnswer | script.js:45-52 | the per-question handler updates the answer flags in place exactly as Flipped says |

## Left out

- DOM lookup by id and selector, `addEventListener` registration and the event object (script.js:7-9, 41, 61-72, 127). These are browser plumbing. The model's classes stand for the elements, and each handler is a method. `event.preventDefault()` is recorded only as the flag `defaultPrevented`.
- CSS class names and the Font Awesome icon classes. The dark-mode class is a boolean, and the `fa-sun`/`fa-moon` pair is one boolean `sunIcon`.
- `localStorage` as persistent browser storage. The store is a `map<string, string>` value held by the page, and reloading is modelled by starting a fresh page over the same map.
- UTF-16 code units. Strings are sequences of Unicode scalar values, and `.length` is `|s|`. A character outside the Basic Multilingual Plane would count as 2 in the script and 1 here. This matters only for the six-character password minimum.
- `IsSpace` follows the Zs category as of current Unicode. A browser built on a different Unicode version can differ for newly added space characters.
- Faq.Flipped: assumes question i's parent holds its own distinct `.faq-answer`; if two questions shared a parent, both would flip the same answer, and a parent without one would make the click throw, neither of which the model captures.
- Regular expressions in general. Only the one fixed pattern is modelled, by hand.
- The HTML defaults restored by `form.reset()` and the initial theme and FAQ state. These come from markup that is not part of this model; the assumed values are listed above.
