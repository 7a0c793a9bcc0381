# Portfolio site: contact form, project filter and hero banner

A Dafny model of the three pieces of behaviour in a single-page React
portfolio site:

- **Contact form** (`contact.dfy`, module `Contact`, with the string helpers
  of `jsstring.dfy`, module `JsString`). The `Contact` component keeps four
  text fields (`name`, `email`, `subject`, `message`), an error map and two
  flags, `isSubmitting` and `submitSuccess`. Validation is the pure function
  `Validate`. It checks each field on its own: the name must not be blank;
  the email must not be blank and must contain a match of `\S+@\S+\.\S+`;
  the trimmed message must not be blank and must be at least 10 UTF-16 code
  units long. The subject is never checked. The class `ContactForm` holds
  the component's state. Its methods are the handlers: a field edit, a
  submit, the end of the simulated 1800 ms send, and the 5000 ms timer that
  hides the success banner.
- **Project filter** (`projects.dfy`, module `Projects`). There are six fixed
  projects and four filter buttons. "All" shows every project; any other
  filter shows exactly the projects of that category, in gallery order. The
  class `ProjectsSection` holds the selected filter.
- **Hero banner** (`hero.dfy`, module `Hero`). The typing effect writes
  "Full-Stack Developer" one character per 100 ms tick. The scroll-down
  indicator shows while `scrollY < 40`. Twenty background particles sit at
  integer percentage positions.

JavaScript details the model writes out:

- `IsWhitespace` is the ECMAScript WhiteSpace and LineTerminator set. That
  set is what `trim` strips, and `\s` matches exactly it.
- `.length` counts UTF-16 code units, so `Utf16Length` counts an astral-plane
  character as two.
- The regular expression's unanchored search is the predicate
  `EmailPatternMatches`. It asks for an `@` at `p` and a `.` at `q` with one
  non-space character before `p`, a non-empty run of non-space characters
  between them, and one non-space character after `q`. `RegexTest` is the
  direct reading of the pattern, with four cut points, and
  `EmailPatternIsRegexSearch` proves the two agree.

Timers and browser events are explicit events in the model:

- `CompleteSend` is the 1800 ms send callback.
- `DismissSuccess` is the 5000 ms dismissal callback. A ghost counter,
  `pendingDismissals`, counts the dismissal timers that are armed and have
  not yet fired.
- `Tick` is one run of the 100 ms typing timer.
- `OnScroll` is one call of the scroll listener, with `window.scrollY` as its
  parameter.

The submit button is `disabled` while a send is running
(`src/components/Contact.jsx:261`). So `HandleSubmit` requires
`!isSubmitting`, and `CompleteSend` requires `isSubmitting`.

Behaviour of the code that the model keeps, though a reader might expect
otherwise:

- There is no failure state: the send is a stub that always succeeds.
- Editing a field does not dismiss the success banner.
- When a field with a shown error is edited, its entry stays in the map as
  the empty string. It is hidden, but the field is not re-validated until the
  next submit.
- The email check does not demand a single `@`: `SecondAtSignAccepted` proves
  that "a@b@c.d" is accepted.
- A second submit while sending is prevented only by the disabled button.

## Model

| member | source | states |
|---|---|---|
| `JsString.TrimStartDropsPrefix` | src/components/Contact.jsx:21 | the start of `trim` drops only white space, and what remains does not start with white space |
| `JsString.TrimEndDropsSuffix` | src/components/Contact.jsx:21 | the end of `trim` drops only white space, and what remains does not end with white space |
| `JsString.Trim` | src/components/Contact.jsx:21-26 | `.trim()`: never longer than its input; characterized by `TrimIsMiddle` as the kept middle slice with white space dropped at both ends and none left at its ends |
| `JsString.TrimIsMiddle` | src/components/Contact.jsx:21-26 | `trim(s)` is a contiguous slice `s[lo..hi]`; everything outside it is white space; the slice neither starts nor ends with white space |
| `JsString.BlankIffAllWhitespace` | src/components/Contact.jsx:21-25 | `!s.trim()` holds iff every character of `s` is white space |
| `JsString.Utf16Length` | src/components/Contact.jsx:26 | `.length` lies between the character count and twice the character count |
| `JsString.Utf16LengthOfBmp` | src/components/Contact.jsx:26 | for text without astral-plane characters, `.length` equals the character count |
| `Contact.FormData.Set` | src/components/Contact.jsx:35-38 | `{...prev, [k]: v}` has `v` at `k` and every other field unchanged |
| `Contact.EmailPatternMatches` | src/components/Contact.jsx:23 | `/\S+@\S+\.\S+/.test(email)`: a matching string has at least 5 characters; proved by `EmailPatternIsRegexSearch` to hold iff some substring matches the pattern |
| `Contact.EmailPatternIsRegexSearch` | src/components/Contact.jsx:23 | the position predicate holds iff some substring matches `\S+@\S+\.\S+` |
| `Contact.Validate` | src/components/Contact.jsx:19-28 | name error iff the name is blank; email error iff blank or no pattern match, "required" when blank and "invalid" otherwise; message error iff blank or trimmed length < 10, "required" when blank and "too short" otherwise; never a subject error |
| `Contact.ValidIff` | src/components/Contact.jsx:29 | no error is collected iff the name is non-blank, the email matches and the trimmed message is at least 10 long |
| `Contact.MatchIsNotBlank` | src/components/Contact.jsx:22-24 | an email that matches the pattern is never blank |
| `Contact.EmailErrorIff` | src/components/Contact.jsx:22-24 | the email has an error iff it does not match; "Email is invalid" goes exactly to non-blank emails without a match |
| `Contact.MessageTooShortIff` | src/components/Contact.jsx:25-27 | the too-short message is given iff the trimmed length is 1 to 9; a blank message is told it is required |
| `Contact.ErrorsAreKnownMessages` | src/components/Contact.jsx:20-27 | every collected error is one of the five fixed, non-empty messages |
| `Contact.OnlyNameMissing` | src/components/Contact.jsx:19-29 | a blank name with a matching email and a long-enough message yields exactly "Name is required" |
| `Contact.MissingNameScenario` | src/components/Contact.jsx:19-29 | an empty name with "a@b.com" and "hello there" yields only "Name is required" |
| `Contact.BadEmailShortMessageScenario` | src/components/Contact.jsx:19-29 | "Jo", "bad-email", "short" yields exactly "Email is invalid" and the too-short message |
| `Contact.SecondAtSignAccepted` | src/components/Contact.jsx:23 | the pattern accepts an email with two `@` signs |
| `Contact.ContactForm.constructor` | src/components/Contact.jsx:7-16 | the form starts with empty fields, no errors, not submitting, no success banner |
| `Contact.ContactForm.ValidateForm` | src/components/Contact.jsx:19-30 | the error map is replaced wholesale by `Validate(formData)`; the result is true iff that map is empty |
| `Contact.ContactForm.HandleChange` | src/components/Contact.jsx:33-45 | field `k` becomes `v` and the other fields stay; a shown error on `k` becomes `""`, other errors are unchanged; the flags are unchanged |
| `Contact.ContactForm.HandleSubmit` | src/components/Contact.jsx:48-52 | errors become `Validate(formData)`; `isSubmitting` is set iff there are none; fields and `submitSuccess` are unchanged |
| `Contact.ContactForm.CompleteSend` | src/components/Contact.jsx:54-58 | `submitSuccess` is set, all four fields become empty, `isSubmitting` is cleared, and one dismissal timer is armed |
| `Contact.ContactForm.DismissSuccess` | src/components/Contact.jsx:58 | a firing dismissal timer clears `submitSuccess`; every handler keeps the invariant that a shown banner has a dismissal timer armed and every error entry is a known message or `""` |
| `Contact.ValidSubmissionLifecycle` | src/components/Contact.jsx:48-60 | any valid input typed into a fresh form is sent, succeeds, leaves the fields empty, and ends idle with no errors after dismissal |
| `Projects.FilterByCategory` | src/components/Projects.jsx:88 | `projects.filter(p => p.category === activeFilter)`; never longer than its input, pinned down exactly by `FilterCountsExactly` (same multiplicities within the category, none outside) and `FilterIsSubsequence` (input order kept) |
| `Projects.FilterCountsExactly` | src/components/Projects.jsx:88 | the filter keeps every copy of each project of the category and no project of another category |
| `Projects.FilterIsSubsequence` | src/components/Projects.jsx:88 | the filter keeps the projects' relative order |
| `Projects.FilteredProjects` | src/components/Projects.jsx:85-88 | "All" shows the whole gallery; any other filter shows exactly the projects of that category; never more than six projects |
| `Projects.FilteredProjectsKeepOrder` | src/components/Projects.jsx:85-88 | the shown projects are a subsequence of the gallery |
| `Projects.AllFilterResult` | src/components/Projects.jsx:14-87 | "All" shows projects 1 to 6 |
| `Projects.WebAppsFilterResult` | src/components/Projects.jsx:14-88 | "Web Apps" shows projects 3, 4 and 6 |
| `Projects.AiProjectsFilterResult` | src/components/Projects.jsx:14-88 | "AI Projects" shows project 1 |
| `Projects.FullStackFilterResult` | src/components/Projects.jsx:14-88 | "Full-Stack" shows projects 2 and 5 |
| `Projects.CategoryButtonsSplitGallery` | src/components/Projects.jsx:14-88 | every project's category is one of the three category buttons, and those three filters together show as many projects as the gallery holds |
| `Projects.ProjectsSection.constructor` | src/components/Projects.jsx:12 | the selected filter starts as "All" |
| `Projects.ProjectsSection.SelectFilter` | src/components/Projects.jsx:131-134 | a button click selects that button's filter, so the selection is always one of the four buttons |
| `Hero.HeroSection.constructor` | src/components/Hero.jsx:7-12 | typing starts at index 0 with no text, and the scroll indicator is shown |
| `Hero.HeroSection.Tick` | src/components/Hero.jsx:14-22 | while characters remain, a tick appends exactly `fullText[index]` and advances the index; at the end it changes nothing; `typedText == fullText[..index]` is kept |
| `Hero.HeroSection.OnScroll` | src/components/Hero.jsx:24-27 | the indicator is shown iff `scrollY < 40` |
| `Hero.TypeOut` | src/components/Hero.jsx:7-22 | after `n` ticks the banner shows the first `min(n, 20)` characters of the title, and after 20 ticks the whole title |
| `Hero.Particles` | src/components/Hero.jsx:33-35 | there are exactly 20 particles, each at a left and top percentage in 0 to 99 |
| `Hero.ColumnGivesIndex` | src/components/Hero.jsx:34 | the column `(41 i) % 100` determines `i` for `i < 100`, since 61 inverts 41 modulo 100 |
| `Hero.RowGivesIndex` | src/components/Hero.jsx:35 | the row `(13 i + 20) % 100` determines `i` for `i < 100`, since 77 inverts 13 modulo 100 |
| `Hero.ParticlesSpreadOut` | src/components/Hero.jsx:33-35 | no two particles share a column or a row |

## Left out

- Animation: all framer-motion props, variants, transitions and `AnimatePresence`. They are declarative styling over an external library.
- Timer durations and cancellation: the 100 ms, 1800 ms and 5000 ms delays, and `clearTimeout` on unmount. Only the state change at each firing is modelled.
- Floating-point particle fields: `delay`, `scale` and the derived animation `duration`. Only the integer `left` and `top` percentages are modelled, as numbers rather than the `"N%"` strings.
- Display-only project fields: description, emoji image and the two links. A project keeps its id, title, category and tags.
- The network: the send is a stub in the source, with no request and no failure path.
- `e.preventDefault()` and the rest of the browser's form handling, apart from the disabled submit button.
- `Hero.HeroSection.OnScroll`: `scrollY` is a `real`, not an IEEE double.
- `JsString.Utf16Length`: characters are Unicode scalar values, and each astral character is counted as its two UTF-16 code units. `\S` at code-unit level finds a match exactly when it finds one at character level, because `@`, `.` and every white-space character lie in the Basic Multilingual Plane.
- `src/App.jsx` is not part of this model: its loading timer, lazy loading, performance logging and scroll-to-top threshold are UI glue.
- `src/components/Navbar.jsx` is not part of this model: its menu toggle and active section are driven by a scroll library.
- `src/components/Skills.jsx` and `src/components/About.jsx` are not part of this model: they render static data.
