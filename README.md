# apple_docs_scraper core, modelled in Dafny

The scraper reads a configuration document of sections. Each section has a
base URL and a list of path entries. From these it derives a list of tasks
(an output file name and a full URL). A processor then walks the task list,
skips tasks whose URL fails validation, and hands accepted tasks to a
web-page-to-Markdown converter, at most one per run. A separate converter
joins the extracted text of a PDF's pages into a Markdown text.

The model has four modules:

- `Wrappers` (wrappers.dfy): `Option`, used for a missing configuration key and for a step that raised.
- `TaskLoader` (task_loader.dfy): the task derivation.
  - `LoadUrlTasks` is the outer loop over sections with its all-or-nothing error rule. `AppendEntryTasks` is the inner loop over a section's entries.
  - It is proved equal to the function `LoadedTasks`.
  - Lemmas give the count, position, URL and file name of every task.
- `UrlProcessing` (url_processing.dfy): the processor class and the script's entry point.
  - `URLProcessor.Process` is the capped selection loop. It returns the run's events: the "invalid URL" warnings, the converter calls with their Markdown paths, and the "limit reached" notice.
  - It is proved equal to the function `Run`.
  - Lemmas show `Run` converts exactly the first valid task (in general, the first `limit` valid tasks), and that skipped tasks do not use up the limit.
- `PdfToMarkdown` (pdf_to_markdown.dfy): the page-text accumulation loop, proved equal to `PagesText`, plus lemmas on its length and on where each page's block sits.

The URL validator becomes a parameter `validate: string -> bool` with no fixed meaning. The converter is not run; each call becomes a `Converted` event that records the task and the output path.

Three behaviours of the code are worth stating:

- The PDF converter puts `"\n\n"` after every page, including the last. So it is a terminator, not only a separator between pages.
- File names can collide even when section names and entries are distinct. Entries `a/b` and `a_b` of one section both become `<section>_a_b`. Section `a_b` with entry `c` and section `a` with entry `b_c` both become `a_b_c`. `TaskLoader.FileNamesCanCollide` shows both cases. Two colliding tasks would overwrite each other's output if both were converted; the cap of one conversion per run prevents that within a run.
- The cap of one conversion per run is reproduced as written (`MaxTasksPerRun`). The general lemma `RunConvertsFirstValid` also covers any other cap.

## Model

| member | source | states |
|---|---|---|
| `TaskLoader.ReplaceSlashes` | main.py:38 | `url.replace('/', '_')` keeps the length, turns each `/` into `_`, leaves every other character in place, and leaves no `/` |
| `TaskLoader.EntryTask` | main.py:37-38 | the URL is `base_url + entry`; the file name is the section name, `_`, then the entry with slashes replaced, so that part has no `/` and is as long as the entry |
| `TaskLoader.SectionTasks` | main.py:36-39 | one task per entry of a section; the task at position j is entry j's task |
| `TaskLoader.AppendEntryTasks` | main.py:36-39 | the inner loop appends exactly the section's tasks, one per entry in entry order, after the tasks already gathered |
| `TaskLoader.LoadUrlTasks` | main.py:28-43 | the nested append loop returns exactly `LoadedTasks(doc)`: all tasks if the document is readable and every section has both keys, otherwise `[]` |
| `TaskLoader.TaskCount` | main.py:33-40 | the number of tasks equals the total number of `urls` entries across sections |
| `TaskLoader.TaskAt` | main.py:34-39 | entry j of section i is the task at position (entries of earlier sections) + j; its URL is `base_url + entry` and its file name is `section + "_" + entry` with slashes replaced |
| `TaskLoader.TaskOrigin` | main.py:34-39 | every task position is (entries of earlier sections) + j for some section i and entry j |
| `TaskLoader.SectionOrder` | main.py:34-36 | tasks of an earlier section come before every task of a later section |
| `TaskLoader.MissingKeyYieldsNothing` | main.py:30-43 | an unreadable document, or any one section lacking `base_url` or `urls`, yields `[]`, not the tasks gathered so far |
| `TaskLoader.FileNamesCanCollide` | main.py:38 | two distinct entries of one section, or entries of two distinct sections, can yield the same file name |
| `UrlProcessing.URLProcessor.constructor` | main.py:126-128 | the processor keeps the given task list and output directory |
| `UrlProcessing.URLProcessor.Process` | main.py:131-149 | the loop's events equal `Run(tasks, validate, dir, 1)`; the converted tasks are the first valid task, if any; at most one conversion; `limit` stays within 0..1 (loop invariant) |
| `UrlProcessing.ProcessConfiguredTasks` | main.py:154-158 | the script's events are one capped run over the loaded tasks in `output`; nothing happens for a malformed document |
| `UrlProcessing.RunConvertsFirstValid` | main.py:132-147 | with `limit` conversions allowed, the converter gets the first `limit` valid tasks in list order, each once; skipped tasks do not use up the limit |
| `UrlProcessing.MarkdownPathShape` | main.py:139 | the path ends in the file name followed by `.md`; it is exactly `filename.md` when the file name is absolute or the directory is empty or `.`, and otherwise starts with the directory and `/` |
| `UrlProcessing.ConvertedPaths` | main.py:139-143 | every converter call writes to `MarkdownPath(output_dir, filename)` for its own task |
| `UrlProcessing.RunPicksFirstValid` | main.py:133-149 | with the cap of one and k the first valid task: a warning for each earlier task, then the conversion of task k, then "limit reached" exactly when a later task exists |
| `UrlProcessing.RunWithNoValid` | main.py:137-149 | when no URL is valid, every task is skipped and nothing is converted |
| `PdfToMarkdown.Convert` | main.py:111-123 | the written text is `PagesText(pages)`, every page followed by `"\n\n"` in order; nothing is written when opening the file or extracting a page fails |
| `PdfToMarkdown.PagesTextLength` | main.py:116-118 | the text's length is the sum of the page lengths plus 2 per page |
| `PdfToMarkdown.PageBlock` | main.py:116-118 | page k's text followed by `"\n\n"` sits right after the blocks of pages 0..k-1 |

## Left out

- Browser sessions, waiting for the content element, the hiding script, print-to-PDF and its base64 decoding (main.py:51-81): external browser automation and I/O. `WebpageToPDFConverter` is also never called by the pipeline.
- `WebpageToMarkdownConverter.convert` (main.py:84-105): browser automation and the HTML-to-Markdown library. A call to it is recorded as a `Converted` event.
- `URLValidator.validate` (main.py:45-49): a library call. It becomes the parameter `validate`.
- YAML parsing and file opening (main.py:31-32): library and filesystem calls. The document arrives already parsed as a `Document`. `None` stands for an unreadable file, a YAML error, or a top level that is not a mapping.
- `TaskLoader.LoadUrlTasks`: YAML values not shaped as expected are not modelled. This includes a null or numeric `base_url`, and a string or mapping in place of the `urls` list. A null `base_url` with an empty `urls` list does not raise in the source, but here a key is either absent or a string.
- `PdfToMarkdown.Convert`: PyPDF2 page extraction is not modelled. The page texts come in as given, and a failure anywhere in reading the PDF is the single case `None`. A failing file write is not modelled.
- `UrlProcessing.MarkdownPath`: it models the absolute file name and the empty or `.` directory. It does not model the rest of `pathlib` normalisation: a trailing slash on the directory, repeated slashes, a leading or inner `./`, or `.` components inside the file name.
- `TaskLoader.Document`: a parsed YAML mapping cannot repeat a key. Given a repeated key, PyYAML keeps the first key's position and the last key's value. The model is a plain sequence of sections, so two sections with one name give the tasks of both.
- `random_wiggle` and the sleeps (main.py:23-26, 70, 75, 145): floating-point randomness and timing.
- Logging format, the progress bar, `mkdir` of the output directory, and the random user-agent choice (main.py:18, 64, 129, 133): side effects. The warnings and the limit notice are kept as events.
- The unused `pdf_path` (main.py:138): it is computed but has no effect.
- The top-level catch around the script (main.py:155-160): nothing in the modelled part raises.
