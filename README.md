# SRS form core in Dafny

This project models the logic inside the `SRSForm` component of the SRS
generator front end. The component lets a user type a project name, a short
description and up to three group members. It expands them into a
four-section Software Requirements Specification. The page's only export
button, "Download PDF" (`SRSForm.jsx:354`), sends that document to a
rendering backend and downloads the PDF it returns. The component also
defines a local export, `exportToPDF` (`SRSForm.jsx:138`), that rasterises
the preview after a colour pass, `fixColors`, which is called only from there
(`SRSForm.jsx:150`). Nothing on the page calls `exportToPDF`, so neither the
local export nor the colour pass can be reached from the UI. Both are still
modelled, as the code defines them.

Modules, one per part of the component:

- `Text` covers the JavaScript string operations the component relies on:
  `trim` with the ECMAScript whitespace set, `||` on strings, `includes` and
  `join`. Each has a characterisation: `Trim` is the slice between the
  leading and trailing whitespace. `Join` of no items is `""`; otherwise
  every item sits at a known offset, one separator follows every item but
  the last, and the join ends with the last item.
- `Members` models the member-list editing (`addMember`, `removeMember`,
  `updateMember`, the initial `[""]`, Reset, and Auto-fill with its
  `slice(0, MAX_MEMBERS)`). It proves that no sequence of these edits takes
  the list past `MaxMembers = 3`.
- `Content` models `generateSRSContent` as the pure function `Expand`, with
  the date passed in. Its lemmas cover the trimmed name and description with
  their fallbacks, the member filter and its placeholder, the fixed
  definitions and requirement lists, the scope sentence, and determinism up
  to the date.
- `ColorFix` models `fixColors`. Elements are objects with three colour
  channels. A loop over the root's descendants, and an inner loop over the
  channels, overwrites every value that contains `oklch` with `rgb(0,0,0)`.
  The method is proved against `SanitizeStyle`, and that function is proved
  safe and idempotent.
- `Export` models the two export entry points, `downloadFromBackend` (the
  one the page wires up) and the unreachable `exportToPDF`. Both check first
  that a document has been generated, and the local path also checks that
  the preview is present. It also models the flattened text payload the
  remote path posts and the download file name.

Three behaviours of the code are easy to miss:

- The file name uses the raw project name. The only fallback is for the
  empty string, so a name of spaces gives a file named after those spaces.
  For example, one space gives `" -SRS.pdf"` (`Export.DownloadNameUntrimmed`).
- The colour pass visits the descendants of the preview root, not the root
  itself.
- Member entries are filtered for emptiness and are not trimmed, so `" "`
  reaches the cover.

## Model

| member | source | states |
|---|---|---|
| `Text.Trim` | src/components/SRSForm.jsx:40-41 | the trimmed value is the slice of the input starting after the leading whitespace; everything before and after it is whitespace; it neither starts nor ends with whitespace |
| `Text.TrimEmptyIff` | src/components/SRSForm.jsx:40-41 | trimming gives the empty string (and so triggers the fallback) exactly when the input is all whitespace |
| `Text.TrimIdempotent` | src/components/SRSForm.jsx:40-41 | trimming an already trimmed value changes nothing |
| `Text.OrElse` | src/components/SRSForm.jsx:177 | `s \|\| fallback` on strings is `s` unless `s` is empty, `fallback` when it is, and empty only when both are |
| `Text.Contains` | src/components/SRSForm.jsx:130 | `s.includes(sub)` holds exactly when `sub` occurs in `s` at some offset |
| `Text.Join` | src/components/SRSForm.jsx:198 | `xs.join(sep)` of no items is `""`; otherwise its length is the items' lengths plus one separator between each two |
| `Text.JoinAt` | src/components/SRSForm.jsx:204 | in `xs.join(sep)` every item sits at its offset, every item but the last is followed by exactly one separator, and the join ends right after the last item |
| `Text.JoinAdjacent` | src/components/SRSForm.jsx:215 | consecutive items of a join appear with the separator between them |
| `Members.AddMember` | src/components/SRSForm.jsx:25-28 | at 3 or more entries the list is unchanged; otherwise exactly one `""` is appended and the old entries stay in place |
| `Members.RemoveMember` | src/components/SRSForm.jsx:30-32 | an in-range index removes exactly that position and keeps the others in order; an out-of-range index changes nothing |
| `Members.UpdateMember` | src/components/SRSForm.jsx:34-36 | the length is preserved, position `idx` (if in range) holds the new value, and every other position is unchanged |
| `Members.Take` | src/components/SRSForm.jsx:121 | `slice(0, n)` keeps the first `n` entries, or all of them when there are fewer |
| `Members.Apply` | src/components/SRSForm.jsx:319-327 | one edit: add, remove and update go to the functions above, Reset restores `[""]` (line 324), Auto-fill installs the example's members cut to 3 (line 121) |
| `Members.ApplyAll` | src/components/SRSForm.jsx:19-36 | the list after a sequence of edits, applied in order from a starting list |
| `Members.ApplyAllKeepsCap` | src/components/SRSForm.jsx:25-36 | from any list of at most 3 entries, any sequence of add, remove, update, reset and auto-fill edits yields at most 3 entries |
| `Members.ReachableWithinCap` | src/components/SRSForm.jsx:19-36 | starting from `[""]`, the member list never exceeds 3 entries |
| `Content.NonEmptyMembers` | src/components/SRSForm.jsx:42 | `filter(Boolean)` is no longer than its input, holds no empty string, and is empty exactly when every entry is empty |
| `Content.NonEmptyMembersKeeps` | src/components/SRSForm.jsx:42 | the filter keeps the input order and keeps every non-empty entry as many times as it occurs |
| `Content.NonEmptyMembersUnique` | src/components/SRSForm.jsx:42 | the filter is the only order-preserving selection that drops exactly the empty entries |
| `Content.CoverMembers` | src/components/SRSForm.jsx:42 | the cover's member list never holds an empty name |
| `Content.CoverMembersSpec` | src/components/SRSForm.jsx:42 | cover members are never empty; they are exactly the non-empty entries when there is one, otherwise exactly `["(No members)"]`; at most max(1, input length) entries |
| `Content.CoverMembersKeepsNonEmpty` | src/components/SRSForm.jsx:42 | a non-empty list without empty entries reaches the cover unchanged, in order |
| `Content.BlankMemberKept` | src/components/SRSForm.jsx:42 | an entry made of a space is kept and an empty one dropped, since entries are not trimmed |
| `Content.Expand` | src/components/SRSForm.jsx:39-108 | `generateSRSContent` with the date as a parameter: the four sections built from the trimmed name and description and the filtered members; its properties are the lemmas below |
| `Content.ExpandCover` | src/components/SRSForm.jsx:39-51 | the cover holds the constant title, the trimmed name and description (or `"Untitled Project"` / `"No description provided."` exactly when the input is all whitespace), the filtered members and the given date |
| `Content.FunctionalLabels` | src/components/SRSForm.jsx:90-96 | there are five functional requirements, prefixed `FR-1:` to `FR-5:` in order |
| `Content.NonFunctionalLabels` | src/components/SRSForm.jsx:101-106 | there are four non-functional requirements, prefixed `NFR-1:` to `NFR-4:` in order |
| `Content.ExpandShape` | src/components/SRSForm.jsx:58-66 | for every input: three definitions, FR-1..FR-5, NFR-1..NFR-4, and a scope that starts with `"The " + name + " aims to " + desc + " "` |
| `Content.ExpandDeterministic` | src/components/SRSForm.jsx:39-108 | two expansions of the same input differ only in the cover date |
| `Content.ExpandBoilerplate` | src/components/SRSForm.jsx:45-107 | definitions, references and specific requirements do not depend on the input; members affect only the cover; the general description depends only on the name |
| `Content.ExpandExample` | src/components/SRSForm.jsx:9-14 | the built-in example expands with its three members on the cover, in order, and five functional requirements |
| `ColorFix.FallbackIsSafe` | src/components/SRSForm.jsx:131 | the fallback colour `rgb(0,0,0)` does not contain `oklch` |
| `ColorFix.SanitizeValue` | src/components/SRSForm.jsx:129-132 | one channel value becomes either itself or `rgb(0,0,0)`; it never holds `oklch` afterwards, and a value without `oklch` is kept |
| `ColorFix.SanitizeStyle` | src/components/SRSForm.jsx:128-133 | each of the three channels is sanitized on its own, so none holds `oklch` afterwards |
| `ColorFix.SanitizeStyleSpec` | src/components/SRSForm.jsx:128-133 | a channel changes only when its value contains `oklch`, in which case it becomes `rgb(0,0,0)`; afterwards no channel contains `oklch` |
| `ColorFix.SanitizeIdempotent` | src/components/SRSForm.jsx:124-135 | sanitizing twice gives the same channels as sanitizing once |
| `ColorFix.Element.Set` | src/components/SRSForm.jsx:131 | assigning one style channel sets it and leaves the other two unchanged |
| `ColorFix.FixElement` | src/components/SRSForm.jsx:128-133 | after the loop over the three properties, the element's channels are the sanitized old channels |
| `ColorFix.FixColors` | src/components/SRSForm.jsx:124-135 | every descendant's channels become the sanitized old channels; the root and all other objects are untouched |
| `Export.DownloadName` | src/components/SRSForm.jsx:177 | the file name ends in `-SRS.pdf` and starts with the raw project name, or is `project-SRS.pdf` when the name is empty |
| `Export.DownloadNameUntrimmed` | src/components/SRSForm.jsx:230 | a name of one space gives `" -SRS.pdf"` although the cover says `"Untitled Project"` |
| `Export.Line` | src/components/SRSForm.jsx:195 | one indented template line holds its `Field: value` text, and so its value |
| `Export.CoverBlock` | src/components/SRSForm.jsx:194-200 | the `cover` string: Title, Project, Description, Members (joined with `", "`) and Date lines; its content is stated by `Export.CoverBlockMembers` |
| `Export.IntroductionBlock` | src/components/SRSForm.jsx:201-206 | the `introduction` string: Purpose, Scope, Definitions (joined with `"; "`) and References lines; stated by `Export.IntroductionBlockDefinitions` |
| `Export.GeneralDescriptionBlock` | src/components/SRSForm.jsx:207-213 | the `generalDescription` string: one line for each of its five fields, in order |
| `Export.SpecificRequirementsBlock` | src/components/SRSForm.jsx:214-218 | the `specificRequirements` string: FR and NFR lists joined with `" \| "` around the interfaces line; stated by `Export.SpecificRequirementsBlockLists` |
| `Export.Serialize` | src/components/SRSForm.jsx:193-219 | the four strings of the request body, one per section of the document; stated by `Export.PayloadOfExpansion` |
| `Export.RenderDefinitions` | src/components/SRSForm.jsx:204 | each definition is rendered as `term + " = " + meaning`, one per definition, in order |
| `Export.CoverBlockMembers` | src/components/SRSForm.jsx:194-200 | the cover block holds `"Members: "` followed by the members joined with `", "`, so it holds every member and each consecutive pair with `", "` between |
| `Export.IntroductionBlockDefinitions` | src/components/SRSForm.jsx:201-206 | the introduction block holds `"Definitions: "` followed by the whole `"; "` join of the rendered definitions, so it holds every definition as `term = meaning` and consecutive ones separated by `"; "` |
| `Export.SpecificRequirementsBlockLists` | src/components/SRSForm.jsx:214-218 | the requirements block holds `"Functional Requirements: "` followed by the whole `" \| "` join of the FRs, and `"Non-Functional Requirements: "` followed by that of the NFRs; so it holds every FR and NFR string, and consecutive ones of each list separated by `" \| "` |
| `Export.PayloadOfExpansion` | src/components/SRSForm.jsx:193-218 | the payload of a generated document names every cover member and all five functional requirements |
| `Export.ExportToPdf` | src/components/SRSForm.jsx:138-177 | with no document it alerts "Generate the SRS first" and changes nothing; with no preview it alerts "Preview not ready."; otherwise it sanitizes the preview's descendants, leaves the root alone and saves under the download name |
| `Export.DownloadFromBackend` | src/components/SRSForm.jsx:180-237 | with no document it alerts and sends nothing; otherwise it sends the serialized document to `<api>/api/generate-srs` and either offers the backend's bytes unchanged under the download name or, on a network failure or non-ok status, alerts |

## Left out

- React state hooks, JSX rendering, the delayed `scrollIntoView` and the preview toggle are UI plumbing. The member list is modelled as the values the state setters receive.
- `handleAutoFill` also sets the name and description fields; only its member list is modelled, as the `Members.AutoFill` edit. Its example data is expanded in `Content.ExpandExample`.
- `Members.AddMember`: the guard reads the rendered list while the updater appends to the latest list. The model treats them as the same list, which holds when one click is processed per render.
- `Export.ExportToPdf`: `await html2canvas(...)` (`SRSForm.jsx:156`) is not inside a `try`, so when it rejects nothing is saved and the rejection goes unhandled after the colours were already changed. The model always ends in `Saved` once both checks pass.
- `Export.ExportToPdf` models no PDF bytes. The `html2canvas` rasterisation, the `jsPDF` page setup, the floating-point aspect-ratio scaling and `addImage` are foreign libraries. Both layout branches place one image on one page anyway. The method ends with the file name it saves under.
- `Export.DownloadFromBackend`: the backend is a function parameter. `fetch`, `response.blob()`, object URLs, the link click, `alert` and `console.error` are browser and network I/O, and failures inside them are not modelled. `JSON.stringify` is not modelled; the body is the four strings it would encode. The base URL comes from the build environment and is a parameter.
- `ColorFix.FixColors`: the source reads the computed style and writes the inline style. The model keeps one value per channel, so CSS cascade resolution (`getComputedStyle`) is not captured. Each channel value is given data.
- `ColorFix.FixColors`: `querySelectorAll("*")` is modelled as the given list of descendants in document order, with the root excluded. The DOM tree that produces that list is not modelled.
- `toLocaleDateString()` depends on the clock and the locale. The date is an opaque string parameter of `Content.Expand`.
- The `api.js` wrapper and the page layout in `App.jsx` are not part of this model. They hold no logic beyond a status check and layout.
- The export panel's summary lines (project name or "Untitled", members joined with ", ") are display only.
