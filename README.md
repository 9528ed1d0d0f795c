# Verified model of a document-conversion service's dispatch core

This project models, in Dafny, the part of a Flask document-conversion
service that decides how an uploaded file is converted. It covers the
service's three variants:

- `hybrid_app.py`:
  - the capability registry (`get_capabilities`);
  - the LibreOffice adapter (`convert_with_libreoffice`) and its
    diagnosis of a failed run;
  - the dispatch cascade of `ConversionEngine.convert_file`: guarded direct
    transcoders first, then LibreOffice, then CloudConvert, then an
    exhaustion error;
  - the search for the file LibreOffice wrote;
  - the text re-flow of the PDF, DOCX, TXT and HTML to PPTX transcoders,
    and the HTML-to-TXT clean-up;
  - the `/convert` route.
- `app.py`: the original `/convert` route. LibreOffice comes first, then one
  Python fallback chosen by the pair of formats. Every converted file is
  validated.
- `modern_app.py`: the `/convert` route. Text and CSV files are converted
  to HTML locally; CloudConvert handles the rest.

Modules:

| file | module | what it holds |
|---|---|---|
| `text.dfy` | `Text` | Python string operations the routes use: `lower`, `rsplit`, `os.path.splitext`, `strip`, `split`, `join`, string order |
| `formats.dfy` | `Formats` | the formats the hybrid service names and the `<in>_to_<out>` keys |
| `files.dfy` | `Files` | a directory as a map from names to size and modification time; `os.rename` |
| `uploads.dfy` | `Uploads` | `allowed_file`, the request, and the UUID-prefixed names |
| `registry.dfy` | `Registry` | `get_capabilities` |
| `libreoffice.dfy` | `LibreOfficeRun` | `convert_with_libreoffice` |
| `dispatch.dfy` | `Dispatch` | `convert_file` |
| `resolution.dfy` | `OutputResolution` | where `convert_file` looks for LibreOffice's output |
| `reflow.dfy` | `Reflow` | slide packing and titles, and text clean-up |
| `hybrid_route.dfy` | `HybridRoute` | the hybrid `/convert` route |
| `app_service.dfy` | `OriginalApp` | the `app.py` route |
| `modern_service.dfy` | `ModernApp` | the `modern_app.py` route and its local converter |

Processes, converters and remote services become inputs: LibreOffice's
exit code and streams, each transcoder's True/False, CloudConvert's
content, the clock, `os.listdir`'s order, the UUID and `secure_filename`'s
result. Each route is a function of those inputs and of the folders
before the request. Where the source updates the folders step by step, a
class with map fields is proved equal to that function:

- `OutputFolder` in resolution;
- `Storage` in `app.py`;
- `Storage` in `modern_app.py`.

The loops are methods with invariants: the sorted union of keys, the
greedy packers and the CSV table builder.

Behaviour the proofs make explicit:

- **First word chunk is one character shorter.** When `convert_pdf_to_pptx`
  splits a long page, the first chunk of several words is at most 999
  characters; later chunks are at most 1000. The length counter adds one
  for every word of the first chunk, but not for the word that restarts a
  later chunk. See `Reflow.PageChunksFit`.
- **Two placeholder branches are unreachable.**
  - The TXT fallback slide never appears: a file that is not blank always
    has paragraphs.
  - The DOCX title code's branch for "no paragraphs" cannot run.
- **Registry and dispatch disagree.**
  - The registry lists `txt_to_csv` for the direct transcoders, but
    `convert_file` has no branch for it. Only CloudConvert can serve it.
  - `docx_to_pptx` is on the LibreOffice list, but its direct branch
    raises on failure and never reaches LibreOffice.
  - The direct list names `html_to_png` and `html_to_jpg` twice; the
    supported list names each once.
- **The "unknown" stand-in never shows.** The LibreOffice adapter's
  `input_ext or 'unknown'` can never appear in a diagnosis, because the
  allow-list test has already passed.
- **The broad "filter" test makes the narrower one redundant.** Any mention
  of "filter" in stderr is diagnosed as an unsupported conversion, so the
  "no export filter" test adds nothing.
- **`app.py` quirks.**
  - A LibreOffice timeout returns 500 and leaves the upload in place.
  - The LibreOffice output is looked for under the original's stem, not
    the UUID-prefixed one, so in practice the newest-file scan finds it.
  - A fallback's output that fails validation is left in the output folder.
  - The final re-validation can never fail once the conversion succeeded.
- **Hybrid route quirks.**
  - The upload stays when `convert_file` raises.
  - The output format is not lower-cased, so "PDF" reaches only
    CloudConvert.
  - The only output check is "exists and not empty".
- **`modern_app.py` does not escape CSV fields.** Fields are put into the
  table unescaped. A table of fields without `<` reads back as its rows,
  but the one-field table `</th>` does not (`ModernApp.MarkupNotEscaped`).

Further source behaviour the model keeps:

- **No 100-byte check in the hybrid route.** After `convert_file` returns,
  the route checks only that the output exists and is not empty
  (`hybrid_app.py:2554-2560`; `HybridRoute.FinishFacts`,
  `HybridRoute.ServedOutputCheck`).
- **First recent file, not newest.** The fallback output scan takes the
  first recent file in `os.listdir` order, not the most recently modified
  one (`hybrid_app.py:2405-2409`; `OutputResolution.FirstRecent`).
- **The DOCX-to-PPTX error escapes.** A failed DOCX-to-PPTX transcoder
  raises out of `convert_file` instead of moving on to the next backend
  (`hybrid_app.py:2232-2242`; `Dispatch.DocxToPptxShortCircuit`).
- **Output format taken as given.** The hybrid route uses the output format
  as sent, without lower-casing it (`hybrid_app.py:2537-2552`;
  `HybridRoute.UnknownOutputFormatOnlyCloud`).
- **The exhaustion message keeps no diagnoses.** It names the pair and the
  available engines; the errors met on the way are dropped
  (`hybrid_app.py:2451-2455`; `Dispatch.ExhaustedMessage`).
- **A failed file is not always deleted.** `app.py` deletes a LibreOffice
  output that fails validation, but leaves a failed fallback output in
  place (`app.py:467-482`; `OriginalApp.FallbackStage`).
- **A short heading with nothing under it vanishes.** In
  `convert_html_to_pptx`, a heading under 100 characters followed by
  another such heading, or by the end of the page, opens a slide that is
  never created, so its text appears nowhere in the deck
  (`hybrid_app.py:1491-1512`; `Reflow.HtmlDeck`).

## Model

| member | source | states |
|---|---|---|
| Text.Lower | hybrid_app.py:64 | `.lower()` keeps the length and lower-cases each character |
| Text.AfterLastDot | hybrid_app.py:64 | `rsplit('.', 1)[-1]` has no dot, is the whole name when there is no dot, and otherwise is what follows some dot |
| Text.SplitExt | hybrid_app.py:2214 | `os.path.splitext` splits the name into root and extension, which concatenate back to the name; the extension is empty or one dot followed by text without dots |
| Text.SplitExtHasExtension | hybrid_app.py:2214 | `splitext` finds an extension exactly when the last dot has a character other than a dot before it, so ".bashrc" and "..x" have none |
| Text.SplitExtOfJoined | hybrid_app.py:2214 | `splitext` of `stem.ext` (ext without dots, stem not all dots) is `(stem, ".ext")` |
| Text.Words | hybrid_app.py:756 | `split()` yields only words: non-empty and without white space |
| Text.WordsAppend | hybrid_app.py:756 | the words of two texts meeting at a word boundary are the words of each, in order |
| Text.WordsOfJoin | hybrid_app.py:756-771 | words joined with single spaces split back into the same words, in order |
| Text.WordsStrip | hybrid_app.py:1408-1410 | stripping a text leaves its words unchanged |
| Text.SplitOn | hybrid_app.py:2381 | `split('_')` yields at least one part, none containing the separator |
| Text.JoinSplitOn | hybrid_app.py:2381 | joining the parts of a split with the separator gives the string back |
| Text.StripIsStripped | hybrid_app.py:349-350 | `strip()` leaves no white space at either end |
| Formats.Name | hybrid_app.py:46-50 | each format's extension is 3 or 4 characters, without `_` or `.` |
| Formats.Parse | hybrid_app.py:46-50 | a string parses to a format only when it is that format's exact name |
| Formats.ParseIff | hybrid_app.py:46-50 | a string parses to a format exactly when it equals that format's name |
| Formats.KeyOf | hybrid_app.py:2217 | the conversion key `<ext>_to_<fmt>` is four characters longer than the two extensions together |
| Formats.KeyOfPair | hybrid_app.py:297-299 | a key built from two strings is a pair's key exactly when both strings name that pair's formats |
| Formats.KeyInjective | hybrid_app.py:263-267 | distinct conversions have distinct keys |
| Uploads.AllowedJoined | hybrid_app.py:59-65 | a name `stem.ext` of at most 255 characters whose extension is allowed in some letter case is accepted |
| Uploads.AllowedIsJoined | hybrid_app.py:59-65 | every accepted name has at most 255 characters and a last dot followed by an allowed extension in some case |
| Uploads.InputName | hybrid_app.py:2542 | the saved name is one character longer than the UUID and the secured name together |
| Uploads.InputNameParts | hybrid_app.py:2542 | the saved name reads back as the UUID, then `_`, then the secured name |
| Uploads.DownloadNames | hybrid_app.py:2565-2566 | for `stem.ext`, the download is named after `stem` and the output after `<uuid>_<stem>` |
| Uploads.PrefixedStem | hybrid_app.py:2214 | the saved upload's stem keeps the UUID prefix |
| Files.Moved | hybrid_app.py:2396-2400 | after a rename the target holds the source's entry, the source is gone, and nothing else changes |
| Registry.Insert | hybrid_app.py:263-267 | inserting into a strictly sorted list keeps it strictly sorted and adds exactly that element |
| Registry.SortedKeys | hybrid_app.py:263-267 | `sorted(set(...))` of the keys is strictly sorted and holds exactly the list's keys |
| Registry.GetCapabilities | hybrid_app.py:181-269 | the direct list (plus html_to_pdf with wkhtmltopdf), the LibreOffice list only when LibreOffice was found, the CloudConvert marker only with a key, and the sorted duplicate-free union of the two lists' keys |
| Registry.KeysMember | hybrid_app.py:191-256 | a key is in a list's keys exactly when its conversion is in the list |
| Registry.DirectListRepeats | hybrid_app.py:206-218 | the direct list names html_to_png and html_to_jpg twice |
| Registry.HtmlToPdfListing | hybrid_app.py:221-253 | html_to_pdf is a LibreOffice entry and not one of the direct list's own |
| Registry.TxtToCsvListing | hybrid_app.py:216 | txt_to_csv is claimed by the direct list and not by LibreOffice's |
| Registry.DocxToPdfListing | hybrid_app.py:191-219 | docx_to_pdf is not a direct conversion |
| Registry.HtmlToPdfNeedsWkhtmltopdf | hybrid_app.py:221-222 | html_to_pdf is direct exactly with wkhtmltopdf, and supported exactly with wkhtmltopdf or LibreOffice |
| Registry.SupportedIsDuplicateFree | hybrid_app.py:263-267 | the supported list has no repeats although the direct list has two |
| Registry.FallbackEntryIsNoKey | hybrid_app.py:259-260 | the CloudConvert marker is no conversion's key |
| Registry.CloudContributesNothing | hybrid_app.py:258-267 | the marker never enters the supported list, which ignores the API key |
| Registry.WithoutLibreOffice | hybrid_app.py:227-256 | without LibreOffice the supported list is exactly the direct keys, and docx_to_pdf is missing |
| Registry.InLibreOfficeListOf | hybrid_app.py:297-299 | for strings naming formats, the key test is membership of their pair |
| Registry.InLibreOfficeListIsKeyTest | hybrid_app.py:2368-2371 | the list test is exactly `<ext>_to_<fmt>` being among the LibreOffice keys |
| LibreOfficeRun.ExtOrUnknown | hybrid_app.py:329 | `input_ext or 'unknown'` is never empty and is the extension when there is one |
| LibreOfficeRun.Diagnose | hybrid_app.py:345-373 | exit code 0 is success whatever the streams say; otherwise the first matching rule in order: unreadable, filter, failed to open, silent exit 1, then stderr, stdout or exit code |
| LibreOfficeRun.ConvertWithLibreOffice | hybrid_app.py:285-376 | converted exactly when found, input present and non-empty, pair listed, and the run exits 0; each precondition fails with its own error, a run past 90 s times out, and a non-zero exit fails with the message `Diagnose` gives for its code and streams |
| LibreOfficeRun.PreconditionsBeforeRun | hybrid_app.py:287-300 | when a precondition fails the attempt fails and the process outcome is never consulted |
| LibreOfficeRun.AnyFilterMentionIsUnsupported | hybrid_app.py:357-360 | stderr saying "no export filter", unless it says the source could not be loaded, is an unsupported conversion |
| LibreOfficeRun.MessageNamesFormats | hybrid_app.py:358-365 | the unsupported and unreadable messages name the formats involved |
| LibreOfficeRun.MessageCarriesOutput | hybrid_app.py:362-373 | the failed-run messages carry stderr, stdout or the exit code |
| LibreOfficeRun.DiagnosedExtensionIsKnown | hybrid_app.py:297-365 | once past the list test, the extension names a format, so "unknown" never appears |
| Dispatch.GuardIsBranchFor | hybrid_app.py:2222-2362 | a branch's guard holds exactly when it is the one branch the by-input table names for the pair |
| Dispatch.RuleIndex | hybrid_app.py:2222-2362 | every branch has a position in the order the source tests them |
| Dispatch.RuleOrderHasNoRepeats | hybrid_app.py:2222-2362 | no branch is tested twice |
| Dispatch.DirectStageTrace | hybrid_app.py:2222-2362 | the chain invokes only guarded branches; all before the last failed, a success is the last one's, and an error comes only from docx to pptx |
| Dispatch.StageOfSingleBranch | hybrid_app.py:2222-2362 | with one guarded branch and no repeats, that branch alone decides the chain |
| Dispatch.DirectStageFollowsTable | hybrid_app.py:2222-2362 | the chain of guarded `if`s behaves as a lookup of the one branch the table names |
| Dispatch.AvailableEngines | hybrid_app.py:2443-2449 | the engines listed are empty exactly when none is configured, one per configured engine |
| Dispatch.ExhaustedMessage | hybrid_app.py:2451-2455 | the exhaustion error names the pair, then the available engines or "none configured" |
| Dispatch.LaterStages | hybrid_app.py:2366-2457 | LibreOffice is tried exactly when found and listed, CloudConvert exactly with a key unless LibreOffice worked, and LibreOffice always before CloudConvert; the last tried decides success, else the exhaustion error |
| Dispatch.LaterStagesWithoutLibreOffice | hybrid_app.py:2366-2439 | an unlisted pair goes to CloudConvert alone, and only with a key |
| Dispatch.CascadeFollowsTable | hybrid_app.py:2212-2457 | `convert_file` is the table lookup followed, if it passed on, by the later stages |
| Dispatch.FirstSuccessWins | hybrid_app.py:2212-2457 | only permitted backends are invoked, in the cascade order direct, LibreOffice, CloudConvert; every one before the last failed, and the call succeeds exactly when the last one worked, via that one |
| Dispatch.TableFirstSuccessWins | hybrid_app.py:2222-2362 | the table reading keeps the first-success property and the cascade order of the later stages |
| Dispatch.CascadeWithoutBranch | hybrid_app.py:2364-2457 | a pair without a branch goes straight to LibreOffice and CloudConvert |
| Dispatch.CascadeWithBranch | hybrid_app.py:2222-2242 | the named branch is invoked first; its success or the DOCX error ends the call |
| Dispatch.DocxToPptxShortCircuit | hybrid_app.py:2232-2242 | docx to pptx never reaches LibreOffice or CloudConvert although listed: it converts or raises its own error |
| Dispatch.TxtToCsvHasNoRoute | hybrid_app.py:2244-2260 | txt to csv has no branch and no LibreOffice entry: only CloudConvert can serve it |
| Dispatch.CloudOnly | hybrid_app.py:2430-2457 | a pair with no branch and no listing goes to CloudConvert alone, if anywhere, and a success is CloudConvert's |
| Dispatch.HtmlToPdfRoute | hybrid_app.py:2227-2230 | with wkhtmltopdf its branch is first; without it no direct branch runs and LibreOffice is tried whenever found |
| Dispatch.DocxToPdfGoesToLibreOffice | hybrid_app.py:2366-2375 | docx to pdf has no branch: LibreOffice, when found, is invoked first |
| OutputResolution.StripUuidPrefix | hybrid_app.py:2378-2383 | a name that does not look prefixed is kept; a prefixed one becomes exactly the text after its first `_`, or empty when it has none |
| OutputResolution.AfterFirstUnderscore | hybrid_app.py:2381 | `'_'.join(parts[1:])` of a name with a `_` is the text after its first `_` |
| OutputResolution.StripUndoesPrefix | hybrid_app.py:2378-2383 | stripping `<uuid>_rest` gives `rest` |
| OutputResolution.Candidates | hybrid_app.py:2386-2390 | three names, the first being the output's own name |
| OutputResolution.StrippedCandidateIsOriginalStem | hybrid_app.py:2386-2390 | for an upload saved as `<uuid>_<stem.ext>` the second and third candidates are the same name |
| OutputResolution.FirstUsable | hybrid_app.py:2392-2393 | the first candidate that exists and is not empty, and none before it is |
| OutputResolution.FirstRecent | hybrid_app.py:2405-2409 | the first listed file with the extension, modified within 120 s and not empty |
| OutputResolution.ChooseOutput | hybrid_app.py:2386-2422 | the first usable candidate, else the first recent listed file, else none |
| OutputResolution.OutputNameFirst | hybrid_app.py:2392-2394 | when the output name itself is usable it is chosen and nothing moves |
| OutputResolution.ResolutionMovesOneFile | hybrid_app.py:2392-2419 | the chosen file ends under the output name, non-empty, and nothing else changes |
| OutputResolution.OutputFolder.Resolve | hybrid_app.py:2377-2422 | reports found exactly when a choice exists, and then the folder is the old one with that file moved; otherwise unchanged |
| Reflow.Pack | hybrid_app.py:752-771 | the greedy loop's groups are non-empty, lay out the items in order, and break only where the next item does not fit |
| Reflow.ChunkFits | hybrid_app.py:761-768 | a chunk of several words the loop did not break fits in 1000 characters (999 for the first) |
| Reflow.PartTitle | hybrid_app.py:745-780 | "Page n" for a page's first slide and "Page n (Part i+1)" after it |
| Reflow.PageSlides | hybrid_app.py:741-784 | a page of at most 1000 characters is one slide; a longer one is one slide per greedy chunk of its words |
| Reflow.PageChunksFit | hybrid_app.py:752-771 | the chunks are the page's words in order, each within the limit (999 for the first), split only when the next word would overflow |
| Reflow.PageTexts | hybrid_app.py:719-724 | only stripped, non-blank pages are kept |
| Reflow.PageTextsMember | hybrid_app.py:719-724 | `(n, t)` is kept exactly when page n exists, has text, and `t` is that text stripped and not blank |
| Reflow.PageTextsOrdered | hybrid_app.py:719-724 | the kept pages are numbered from the first page on, in strictly increasing order |
| Reflow.PageTextsEmpty | hybrid_app.py:719-728 | the page list is empty exactly when no page has text |
| Reflow.PdfDeck | hybrid_app.py:704-793 | no deck exactly when no page has text; otherwise a title slide counting the pages with text, then at least one slide per such page |
| Reflow.NonBlank | hybrid_app.py:1077-1081 | the paragraphs kept are stripped and not blank |
| Reflow.NonBlankMember | hybrid_app.py:1077-1081 | a text is kept exactly when it is not blank and some paragraph strips to it |
| Reflow.NonBlankKeepsAll | hybrid_app.py:1077-1081 | when no paragraph is blank, every one is kept, stripped, in its place |
| Reflow.NonBlankAppend | hybrid_app.py:1077-1081 | the filter keeps order: filtering two lists end to end filters each in turn |
| Reflow.DocxContentSlide | hybrid_app.py:1159-1178 | a first paragraph under 60 characters is the title, else "Content" |
| Reflow.DocxContentSlideKeepsText | hybrid_app.py:1159-1178 | every paragraph of the group is the title or in the body |
| Reflow.DocxTitleSlide | hybrid_app.py:1104-1122 | a first paragraph under 100 characters is the title and is left out of the content; otherwise every paragraph is content |
| Reflow.DocxSlides | hybrid_app.py:1124-1148 | the title slide, then one slide per packed group, or the placeholder when there is none |
| Reflow.DocxSlidesKeepText | hybrid_app.py:1104-1148 | every paragraph reaches a slide |
| Reflow.DocxDeck | hybrid_app.py:1077-1153 | a placeholder deck for a document without text; otherwise the title slide and greedy 800-character slides that keep every paragraph |
| Reflow.SplitOnPair | hybrid_app.py:1316 | `split('\n\n')` yields at least one part, and joining the parts with the separator gives the text back |
| Reflow.TxtParagraphs | hybrid_app.py:1315-1318 | the paragraphs are stripped and not blank |
| Reflow.TxtParagraphsMember | hybrid_app.py:1311-1318 | a paragraph is kept exactly when it is a non-blank block between blank lines, stripped, or, when every block is blank, a non-blank line, stripped |
| Reflow.TxtParagraphsOfBlocks | hybrid_app.py:1315 | when some block between blank lines is not blank, the paragraphs are exactly the stripped non-blank blocks |
| Reflow.TxtParagraphsOfLines | hybrid_app.py:1316-1317 | when every block is blank, the paragraphs are exactly the stripped non-blank lines |
| Reflow.TxtHasParagraphs | hybrid_app.py:1311-1318 | a file that is not blank has paragraphs, so the line-split retry never comes up empty |
| Reflow.TxtContentSlide | hybrid_app.py:1359-1375 | a first paragraph under 50 characters without `=` or `-` is the title, else "Content" |
| Reflow.TxtContentSlideKeepsText | hybrid_app.py:1359-1375 | every paragraph of the group is the title or in the body |
| Reflow.TxtSlides | hybrid_app.py:1323-1349 | the title slide, then one slide per packed group, or the fallback slide when there is none |
| Reflow.TxtSlidesKeepText | hybrid_app.py:1329-1343 | every packed paragraph reaches a slide |
| Reflow.TxtDeck | hybrid_app.py:1301-1353 | nothing for a blank file; otherwise greedy 800-character slides (two per break) that keep every paragraph, never the fallback |
| Reflow.CollapseNewlines | hybrid_app.py:1409 | the result has no three newlines in a row, is empty exactly when the input is, and starts with the input's first character |
| Reflow.CollapseKeepsWords | hybrid_app.py:1409 | collapsing newline runs leaves the words unchanged, whatever text comes before |
| Reflow.CollapseKeepsShortRuns | hybrid_app.py:1409 | text without three newlines in a row is unchanged |
| Reflow.StripLinesKeepWords | hybrid_app.py:1408 | stripping every line leaves the words of the joined text unchanged |
| Reflow.NormalizeKeepsWords | hybrid_app.py:1407-1410 | the clean-up keeps the words of the text, in order |
| Reflow.NormalizeLinesStripped | hybrid_app.py:1407-1410 | after the clean-up every line is stripped |
| Reflow.NormalizeText | hybrid_app.py:1407-1410 | the cleaned text has no white space at either end, no three newlines in a row, every line stripped, and the same words as the input, in order |
| Reflow.HtmlContentSlide | hybrid_app.py:1528-1536 | the slide carries the given title; its body is "[No content]" for no texts and otherwise holds every text |
| Reflow.HtmlDeck | hybrid_app.py:1472-1520 | no deck exactly when there are no sections; otherwise the title slide and at least one more; only the placeholder when every section is a short heading; otherwise every slide is titled "Content" or with a heading; every paragraph's text is in some slide's body; every body is at most 802 characters or a single text; a long heading followed by a text is in some body or titles a slide; a short heading titles a slide only when the section after it does not open one, so a short heading followed by another or last on the page appears as no title |
| Reflow.HtmlPackStep | hybrid_app.py:1491-1507 | one pass over a section keeps the packing invariants: every slide is titled "Content" or with a heading, every paragraph seen so far is in the open slide or an earlier body, the running count is the joined length of the open slide's texts or that plus 2, once two texts share the slide their joined length is at most 802, and a lone text is a section's own text, long headings seen so far stay shown, a short heading's title is kept only once a text follows it, and the deck only grows by closing the open slide |
| HybridRoute.HybridExtensionsAreFormats | hybrid_app.py:46-50 | the allowed extensions are exactly the strings naming a format |
| HybridRoute.Suggestions | hybrid_app.py:2573-2580 | one hint per missing engine, each once, in the source's order; none exactly when all are configured |
| HybridRoute.WithSuggestions | hybrid_app.py:2582-2583 | the error message is kept as the prefix and is the whole reply exactly when nothing is missing |
| HybridRoute.Convert | hybrid_app.py:2519-2539 | a request failing a gate gets a 400, changes no folder and invokes no backend |
| HybridRoute.FinishFacts | hybrid_app.py:2550-2585 | the upload is removed exactly when `convert_file` returned; a download exactly when it returned and the file at the output path is not empty; otherwise a 400 with the cause and the suggestions |
| HybridRoute.AdmittedRequest | hybrid_app.py:2541-2552 | past the gates, `convert_file` gets a lower-case extension naming a format and the UUID-prefixed upload |
| HybridRoute.UnknownOutputFormatOnlyCloud | hybrid_app.py:2537-2552 | an output format not spelled as a format's name reaches only CloudConvert, and only with a key; it is downloaded exactly when CloudConvert delivered non-empty content |
| HybridRoute.ServedOutputCheck | hybrid_app.py:2392-2435 | a LibreOffice success always passes the route's output check, since the file moved to the output path is not empty; a CloudConvert success passes it exactly when the delivered content is not empty |
| OriginalApp.LStripDots | app.py:126 | `lstrip('.')` leaves no leading dot |
| OriginalApp.LStripDotsSuffix | app.py:126 | what `lstrip('.')` keeps is a suffix of the name, and everything it removed is a dot |
| OriginalApp.LowerAfterDot | app.py:126 | lower-casing leaves the dot alone |
| OriginalApp.ValidOutputOfJoined | app.py:110-132 | for the route's own output name, validity is exactly "exists with at least 100 bytes" |
| OriginalApp.ValidOutputNeedsExtension | app.py:125-129 | a file whose extension differs from the format in every letter case is invalid |
| OriginalApp.FallbackFor | app.py:468-482 | the one Python fallback of each pair: jpg/jpeg, html or docx to pdf, pdf to xlsx |
| OriginalApp.NewestIndex | app.py:439-446 | the first listed file with the greatest modification time; none exactly when no listed entry is a file |
| OriginalApp.LibreOfficeAttempt | app.py:416-458 | success only with a valid output under the output name; without LibreOffice nothing changes |
| OriginalApp.FailedAdoptionDeleted | app.py:425-456 | an adopted file that fails validation is deleted, and nothing else changes |
| OriginalApp.FallbackStage | app.py:467-482 | success only through the pair's fallback and a valid output; a pair without one changes nothing |
| OriginalApp.FailureOf | app.py:494-503 | the reason: missing LibreOffice first, then pdf to xlsx, then other PDF, then the rest |
| OriginalApp.Refusal | app.py:367-390 | none exactly when the four gates pass; otherwise a 400 |
| OriginalApp.LibreOfficeStep | app.py:409-458 | a successful step leaves a valid output under the output name |
| OriginalApp.RefusedChangesNothing | app.py:367-390 | a refused request changes no folder and calls no converter |
| OriginalApp.AdmittedSteps | app.py:392-519 | the LibreOffice step, then a 500 on timeout or the rest of the route |
| OriginalApp.ConcludeBookkeeping | app.py:467-488 | the upload is removed and the fallback is called only when LibreOffice did not succeed and the pair has one |
| OriginalApp.ConcludeReply | app.py:490-521 | a download only for a valid output, under the output name and named after the original; otherwise the 400 the precedence picks |
| OriginalApp.ConvertersCalled | app.py:409-482 | LibreOffice exactly for the pairs it serves and first, then at most the pair's fallback, exactly when LibreOffice neither succeeded nor timed out |
| OriginalApp.TimeoutStops | app.py:460-462 | a timeout is a 500 before any fallback and leaves the upload |
| OriginalApp.AttemptedSteps | app.py:416-519 | without a timeout, the rest of the route runs on the folder LibreOffice left |
| OriginalApp.UploadRemoved | app.py:484-488 | without a timeout the upload is removed whatever the reply, and no other upload changes |
| OriginalApp.RepliesAfterLibreOffice | app.py:490-521 | a download only for a validated file; the final re-validation never fails, so every error is the 400 the precedence picks |
| OriginalApp.Storage.Convert | app.py:364-521 | the reply, the folders and the converters called are those `Serve` gives |
| OriginalApp.Storage.ConvertSaved | app.py:401-521 | after saving, the outcome is the one `AfterGates` gives |
| OriginalApp.Storage.Finish | app.py:467-521 | the step-by-step tail with the success flag gives the outcome `Conclude` gives |
| ModernApp.TxtPageRoundTrip | modern_app.py:178-196 | the text page holds the text verbatim: reading it back gives the text, whatever it contains |
| ModernApp.PreContentIsPage | modern_app.py:182-195 | every string that reads as a text page is the page of the text it holds |
| ModernApp.TagFor | modern_app.py:226 | `th` exactly for row 0, `td` otherwise |
| ModernApp.JoinRows | modern_app.py:210-230 | the head, one `<tr>` per row in order with its position's tag, and the tail |
| ModernApp.CsvToHtml | modern_app.py:199-230 | the CSV result is the table page of the parsed rows |
| ModernApp.CellsRoundTrip | modern_app.py:227 | a row's cells of fields without `<` read back as the row |
| ModernApp.RowsRoundTrip | modern_app.py:225-228 | the rows of plain fields read back as the rows |
| ModernApp.CsvPageRoundTrip | modern_app.py:199-230 | a table page of fields without `<` gives back exactly the parsed rows |
| ModernApp.MarkupRowMalformed | modern_app.py:227 | the row for the field `</th>` does not read as a row |
| ModernApp.MarkupNotEscaped | modern_app.py:227 | fields are not escaped: the one-field table `</th>` does not read back |
| ModernApp.RenderNonEmpty | modern_app.py:182-230 | no page the local converter renders is empty |
| ModernApp.LocalResult | modern_app.py:174-232 | converted exactly for txt or csv to html on a file that decodes; the text page holds the text, the table page the rows |
| ModernApp.ConvertLocally | modern_app.py:174-232 | returns a page exactly when `LocalResult` converts: the text page or the table page |
| ModernApp.IsEmptyText | modern_app.py:367 | content counts as empty exactly when its text is empty |
| ModernApp.Refusal | modern_app.py:309-328 | none exactly when the four gates pass; otherwise a 400 |
| ModernApp.RefusedChangesNothing | modern_app.py:309-328 | a refused request changes no folder and calls no converter |
| ModernApp.CloudGating | modern_app.py:344-359 | the local converter is always called first; CloudConvert exactly after a `ValueError` and with a key |
| ModernApp.AdmittedReplies | modern_app.py:330-381 | the upload is always removed; a download exactly for non-empty content, which is written under the output name; otherwise a 400 with the key hint exactly when no key is set |
| ModernApp.LocalPairsServedLocally | modern_app.py:344-348 | txt or csv to html on a decodable file never reaches CloudConvert and is always sent |
| ModernApp.Storage.Convert | modern_app.py:305-381 | the reply, the folders and the converters called are those `Serve` gives |
| ModernApp.Storage.ConvertSaved | modern_app.py:341-381 | after saving, the step-by-step flags give the outcome `Conclude` gives |

## Left out

- The outer `except Exception` handlers of the three routes are not modelled. Neither are the 500 replies that follow an unexpected error, `os.makedirs`, or an `OSError` from `os.remove` or `os.rename`. The copy-then-delete fallback after a failed rename is treated as a rename, since it keeps the same content and modification time.
- `secure_filename` is not modelled; its result is an input. The order in which a Python `set` iterates the allowed extensions for the refusal message is an input too.
- The transcoders' file work is not modelled: images, PDFs, Office files, `wkhtmltopdf`, `pdfplumber`, `python-pptx`, `python-docx`, BeautifulSoup and the regex pre-clean-up. For HTML to PPTX, the page title and the list of headings and texts that BeautifulSoup (or the regex fallback) extracts are inputs. Each direct branch's result is an input. For PDF, DOCX, TXT and HTML to PPTX, only the slide texts are modelled, not fonts or layout.
- The "file is not a Word document" messages of `convert_docx_to_pptx` are not modelled; that branch returns False.
- CloudConvert's HTTP job and polling, its timeouts and its returned bytes are not modelled. Its outcome is an input, holding content or a failure.
- LibreOffice process management is not modelled: finding the binary, killing stray instances, the half-second sleep, and the environment. The process's exit code, streams, timeout and the files it leaves are inputs.
- The `/capabilities` and `/health` routes are not modelled, nor the clean-up thread, logging, or the client-side converter.
- Character handling is ASCII only. Lower-casing, upper-casing and white space cover ASCII; UTF-8 decoding and byte lengths are not modelled. A file size is a natural number, and text length stands for byte length.
- In `modern_app.py`, the parsing done by the `csv` module is an input (the rows), and so is whether the file decodes as UTF-8. Content is modelled as the page or CloudConvert's text, not as encoded bytes.
- Reflow.PdfDeck: states the title slide and that the deck has at least one slide per page with text. It does not state that the later slides are exactly each page's `PageSlides`, because those are given by a method whose contract is relational.
- Reflow.CollapseNewlines: states that no three newlines remain and that short runs are kept (`CollapseKeepsShortRuns`). It does not state that every longer run becomes exactly two.
- HybridRoute.Convert: its own contract covers the gates only. What follows them is stated by `AdmittedRequest`, `FinishFacts` and `ServedOutputCheck`. The size of the file a direct transcoder leaves at the output path is an input (`direct`), since the transcoders' file work is not modelled; after LibreOffice or CloudConvert the size comes from the backend that served.
- OriginalApp.LibreOfficeAttempt: states success only for a valid output. Which file is adopted is stated by `NewestIndex` and `FailedAdoptionDeleted` on the helper `Adopt`.
- Reflow.HtmlDeck: states the slide-size rule as a bound on each body (at most 802 characters, or one text alone) and where every paragraph and long heading ends up. It does not state the order of texts across slides, or that a slide is closed only when the next text would push the count past 800.
- Modification times and the clock are whole seconds (`int`), where Python compares floating-point seconds; a file written within the same second as the 120-second cut-off may be judged differently. The directory listing the output scan walks (`os.listdir` order) is an input and is not tied to the folder's names: a listed name that is not in the folder is simply never chosen.
