# Dataset question/answer app: a Dafny model

This project models the core of a small Streamlit application. The app lets a
user upload a dataset (CSV or Excel), looks up a JSON sidecar describing the
dataset's columns, sends natural-language questions about the data to a chat
model, and logs each question with its answer. The repository also holds a
function that writes such a log as a PDF report, and an alternative query
callback that moves charts to unique names. app.py imports the report
function (app.py:12) but never calls it; it is called only from the report
module's own `__main__` block (utils/pdf_utils.py:170). app.py never uses
the alternative callback; its "Send" button runs `handle_question`
(app.py:26-39).

The modelled parts are:

- **Question/answer screen** (`app.py`). The session state, the "Send" and
  "New query" callbacks, the reader chosen for an uploaded file, and the text
  of the response area. Together these form a small state machine over button
  presses (`App`, `SessionState`).
- **Alternative query callback** (`utils/handle_query.py`), not wired into
  app.py. It also moves a freshly drawn chart to a unique name
  (`HandleQuery`).
- **Sidecar lookup** (`utils/match_descriptions_file.py`). The dataset's base
  name is escaped into a regular expression and matched against a directory
  listing. This is modelled with `os.path.splitext`, `re.escape`, and the part
  of `re` the pattern needs (`PyStr`, `PyRe`, `MatchDescriptionsFile`).
- **Column-description script** (`create_dataset_fields_description.py`). It
  chooses a reader by suffix, collects one description per column, and names
  the sidecar (`CreateDatasetFieldsDescription`).
- **PDF report** (`utils/pdf_utils.py`), not called by app.py. This covers the preview table, the
  layout of each entry, the page-break rule before a chart, and the report's
  path. fpdf is modelled as a cursor that leaves marks on pages (`Fpdf`,
  `PdfUtils`). `CustomPdf` is a class whose methods update the cursor in place.
  `create_table` and `create_kai_pdf` are loops proved against layout
  functions, and lemmas prove properties of those functions.

The chat model, the clock, random ids, text measurements, image sizes and the
file system are inputs.

## Model

| member | source | states |
|---|---|---|
| SessionState.Session.constructor | app.py:55-80 | The session starts with no log entry, empty texts, "Send" shown and "New query" hidden. |
| App.Cleared | app.py:18-22 | "New query" empties both texts, shows "Send", hides "New query", and leaves the log untouched. |
| App.ClearInput | app.py:18-22 | The callback changes the session exactly as `Cleared` describes. |
| SessionState.Response | app.py:30-34 | A raised exception is replaced by the caller's retry message, and a returned value is kept. `handle_question` passes its French message; `handle_query` passes its English one (utils/handle_query.py:12-16). |
| App.AfterQuestion | app.py:26-39 | A white-space-only prompt changes nothing. Otherwise exactly one entry (stripped prompt, response) is appended, earlier entries are kept, the response becomes the output, and the buttons flip; the one-button invariant is preserved. |
| App.HandleQuestion | app.py:26-39 | The "Send" callback changes the session exactly as `AfterQuestion` describes. |
| App.Step | app.py:204-213 | Specification function, with no contract of its own: one screen event. Typing sets the prompt. "Send" runs `handle_question` and "New query" runs `clear_input`, each only while its button is shown. `RunKeepsSession` and `AnsweredUntilNewQuery` state its properties. |
| App.Run | app.py:194-213 | Specification function, with no contract of its own: events applied one after another from a state. `RunKeepsSession` and `AnsweredUntilNewQuery` state its properties. |
| App.RunKeepsSession | app.py:194-213 | Over any sequence of edits and presses of visible buttons, exactly one button stays shown. The log only grows, keeps its earlier entries, and gains at most one entry per event. |
| App.AnsweredUntilNewQuery | app.py:204-213 | While "Send" is hidden and "New query" is not pressed, neither the log nor the shown answer changes. |
| App.UploadDispatch | app.py:126-133 | CSV is chosen exactly when the text after the last '.' is "csv", Excel exactly when it is "xlsx" or "xls", and "Unsupported file type" otherwise. |
| App.UploadAgreesWithLoadFile | app.py:126-133 | For names holding a '.', the upload screen and `load_file` pick the same reader and refuse the same names. |
| App.SuffixField | app.py:126 | A dotted name ends in ".w" (w without dots) exactly when its last dot field is w. |
| App.BareNameDiverges | app.py:126 | The two dispatches differ on a name without a dot: "csv" is read as CSV on upload, while `load_file` refuses it. |
| App.DisplayedAnswer | app.py:195-198 | The shown text always ends with `str(answer)`. When that text ends in ".png", the shown text is exactly the chart banner followed by it; otherwise it is that text alone. A text not ending in ".png" may itself begin like the banner. |
| App.ResponseArea | app.py:194-199 | The response area exists exactly while "Send" is hidden, and shows the displayed answer. |
| App.ResponseAreaAfterEvents | app.py:26-39 | After a recorded question the area shows that question's answer; after "New query" it is gone. |
| HandleQuery.GetUniqueFilename | utils/handle_query.py:33-37 | The name is exactly the prefix, "_", the timestamp, "_", the first 8 hexadecimal digits of the uuid and the extension, each part at its position. |
| HandleQuery.UniqueFilenameDistinct | utils/handle_query.py:33-37 | Two names made in the same second differ whenever their short ids differ. |
| HandleQuery.RenamedChartPath | utils/handle_query.py:21-23 | A moved chart lies under "./exports/png/" and still ends in ".png". |
| HandleQuery.AfterQuery | utils/handle_query.py:8-29 | Blank prompt: nothing changes. A non-string answer raises after the output is set, with no log entry. Otherwise one entry is appended with the stripped prompt, and the buttons flip. |
| HandleQuery.RecordedAnswer | utils/handle_query.py:19-27 | The logged answer is the new chart path exactly when the response ends in ".png" and the temporary chart exists; otherwise it is the response. The output text keeps the response either way. |
| HandleQuery.RecordedAnswerKeepsPng | utils/handle_query.py:19-27 | The logged answer ends in ".png" exactly when the response did. |
| HandleQuery.HandleQuery | utils/handle_query.py:8-29 | The callback changes the session, and reports raising and moving, exactly as `AfterQuery` describes. |
| HandleQuery.NonStringAnswerNotRecorded | utils/handle_query.py:18-19 | As written, a non-string answer is shown but never logged, and "Send" stays offered. |
| HandleQuery.AfterQueryChecked | utils/handle_query.py:8-29 | With the ".png" test guarded by a string check, every non-blank prompt is logged with its answer and the buttons flip. |
| HandleQuery.CheckedQueryAgrees | utils/handle_query.py:8-29 | The guarded callback agrees with the written one wherever the written one does not raise. |
| PyStr.StartsWith | utils/match_descriptions_file.py:9 | Library predicate, with no contract of its own: the leading `^` of the lookup pattern tests the name's start character by character. `DescriptionTokensMeaning` and `IsDescriptionOf` use it. |
| PyStr.EndsWith | create_dataset_fields_description.py:9 | Library predicate, with no contract of its own: `str.endswith` compares the last characters exactly, so it is case-sensitive. It also stands for the tests at create_dataset_fields_description.py:11, utils/handle_query.py:19, utils/pdf_utils.py:125 and app.py:197. |
| PyStr.Strip | app.py:27 | The result has no leading or trailing white space, is a contiguous part of the input, and is empty exactly when the input is all white space. |
| PyStr.StripIdempotent | app.py:27 | Stripping twice is stripping once. |
| PyStr.SplitExt | utils/match_descriptions_file.py:7 | Root and extension concatenate back to the path. The extension is empty or a '.' followed by text without '.' or '/'. |
| PyStr.SplitExtAt | utils/match_descriptions_file.py:7 | A name without '/' that does not start with '.' splits at its last '.'. |
| PyStr.Basename | app.py:145 | The result is the text after the last '/': a '/'-free suffix of the path that a '/' precedes, or the whole path when it has no '/'. |
| PyStr.Join | utils/match_descriptions_file.py:15 | An absolute second part replaces the first. Otherwise the result is the two parts concatenated when the first is empty or ends in '/', and the two parts around one '/' otherwise. |
| PyStr.JoinBasename | create_dataset_fields_description.py:50 | Joining a directory not ending in '/' with a '/'-free name gives `dir/name`, whose base name is the name. |
| PyStr.LastDotField | app.py:126 | `split('.')[-1]` is a '.'-free suffix. It is the whole name when there is no '.', and is preceded by a '.' otherwise. |
| PyRe.Escape | utils/match_descriptions_file.py:9 | `re.escape` at most doubles the text. |
| PyRe.CompileEscaped | utils/match_descriptions_file.py:9 | An escaped text compiles to one literal token per character: every character stands for itself. |
| PyRe.ParseBody | utils/match_descriptions_file.py:9 | Library function, with no contract of its own: the parse of a pattern in the modelled subset. Escaped non-alphanumerics are literals, `.*` is a run, `.` is any character, `$` is the end, and other metacharacters give None. `CompileEscaped`, `SuffixTail` and `DescriptionPatternCompiles` state what it yields for the lookup pattern. |
| PyRe.Compile | utils/match_descriptions_file.py:9 | Library function, with no contract of its own: `re.compile`, where a leading `^` adds nothing under `re.match`. `DescriptionPatternCompiles` states its value on the built pattern. |
| PyRe.Match | utils/match_descriptions_file.py:14 | Library function, with no contract of its own: `pattern.match(name)` succeeds when some prefix of the name matches the tokens, and `$` matches only at the end. `DescriptionTokensMeaning` proves what it accepts for the lookup pattern. |
| PyRe.EscapeDotted | utils/match_descriptions_file.py:9 | In two alphanumeric words around a '.', only the dot is escaped. |
| MatchDescriptionsFile.BaseName | utils/match_descriptions_file.py:7 | The base name is a prefix of the target. |
| MatchDescriptionsFile.BaseNameAt | utils/match_descriptions_file.py:7 | For a plain file name, the base name is everything before its last '.'. |
| MatchDescriptionsFile.DescriptionPattern | utils/match_descriptions_file.py:9 | Specification function, with no contract of its own: the pattern text `^`, the escaped base, then `.*descriptions\.json$`. `DescriptionPatternCompiles` states what it compiles to. |
| MatchDescriptionsFile.DescriptionTokens | utils/match_descriptions_file.py:9 | Specification function, with no contract of its own: the compiled pattern as tokens. `DescriptionTokensMeaning` states which names it matches. |
| MatchDescriptionsFile.IsDescriptionOf | utils/match_descriptions_file.py:8-9 | Reference predicate, with no contract of its own: the name starts with the base and ends, without overlap, with "descriptions.json". `DescriptionTokensMeaning` proves the pattern means exactly this. |
| MatchDescriptionsFile.DescriptionPatternCompiles | utils/match_descriptions_file.py:9 | The pattern compiles to the base's characters taken literally, a run, the literal "descriptions.json" and the end anchor. |
| MatchDescriptionsFile.SuffixTail | utils/match_descriptions_file.py:9 | The tail `.*descriptions\.json$` parses to a run, the literal suffix and the end anchor. |
| MatchDescriptionsFile.DescriptionTokensMeaning | utils/match_descriptions_file.py:9-14 | The compiled pattern matches a name exactly when the name starts with the base and ends, without overlap, with "descriptions.json". |
| MatchDescriptionsFile.FirstMatch | utils/match_descriptions_file.py:12-15 | The index returned is the first matching entry; None means no entry matches. |
| MatchDescriptionsFile.FindMatchingDescriptionFile | utils/match_descriptions_file.py:5-18 | None exactly when no listed entry is a description of the base. Otherwise the result is the directory joined with the first such entry. |
| MatchDescriptionsFile.ExtendedBaseMatches | utils/match_descriptions_file.py:9 | A description of a longer base is also a description of the base. |
| MatchDescriptionsFile.PrefixedDatasetMatches | utils/match_descriptions_file.py:9-15 | A sidecar of a dataset whose base name merely extends the target's is returned for the target. |
| MatchDescriptionsFile.DotInBaseIsLiteral | utils/match_descriptions_file.py:9 | A '.' in the base matches only a '.', so a name with another character there is not taken. |
| CreateDatasetFieldsDescription.LoadFile | create_dataset_fields_description.py:8-15 | ".csv" selects CSV; otherwise ".xls" or ".xlsx" select Excel; anything else is the ValueError with its French message. The tests are case-sensitive. |
| CreateDatasetFieldsDescription.LoadFileBySuffix | create_dataset_fields_description.py:9-11 | The choice depends only on the last five characters of the path. |
| CreateDatasetFieldsDescription.UpperCaseRejected | create_dataset_fields_description.py:9-14 | "data.CSV" is refused with the format error. |
| CreateDatasetFieldsDescription.Prompt | create_dataset_fields_description.py:22 | Specification function, with no contract of its own: the French question naming the column. `DescribeColumns` asks it once per column. |
| CreateDatasetFieldsDescription.DescriptionsOf | create_dataset_fields_description.py:19-24 | Specification function, with no contract of its own: the dictionary built from the columns and answers in order. `DescriptionsOfMeaning` states its keys and values. |
| CreateDatasetFieldsDescription.DescriptionsOfMeaning | create_dataset_fields_description.py:19-24 | The dictionary's keys are exactly the columns, and a column's description is the answer at its last occurrence. |
| CreateDatasetFieldsDescription.DescribeColumns | create_dataset_fields_description.py:19-24 | One prompt per column, in order, naming the column; the dictionary is the one `DescriptionsOfMeaning` characterises. |
| CreateDatasetFieldsDescription.SidecarFileName | create_dataset_fields_description.py:48-49 | The sidecar name starts with the dataset's base name, ends with "_field_descriptions.json", and is exactly those two parts long. |
| CreateDatasetFieldsDescription.SidecarPath | create_dataset_fields_description.py:50 | Specification function, with no contract of its own: "./datasources" joined with the sidecar name. `SidecarPathShape` states its value. |
| CreateDatasetFieldsDescription.SidecarPathShape | create_dataset_fields_description.py:50 | The sidecar lies directly in "./datasources" under its name. |
| CreateDatasetFieldsDescription.SidecarIsDescription | create_dataset_fields_description.py:48-49 | The written sidecar is a description of its dataset in the lookup's sense. |
| CreateDatasetFieldsDescription.SidecarFound | app.py:145-146 | When the sidecar is listed, the upload screen's lookup finds a file. When no entry listed before it matches, that file is the sidecar's path. |
| Fpdf.AfterLn | utils/pdf_utils.py:40 | Assumed fpdf rule, with no contract of its own and not proved: `ln(h)` moves x to the left margin and y down by h. The same call is at lines 63, 88, 96, 99, 107, 115, 119, 134, 139, 142 and 144. |
| Fpdf.CellWidth | utils/pdf_utils.py:85 | Assumed fpdf rule, with no contract of its own and not proved: a cell width of 0 means w − r_margin − x, that is, up to the right margin. |
| Fpdf.AfterCell | utils/pdf_utils.py:39 | Assumed fpdf rule, with no contract of its own and not proved: `cell` puts a box at the cursor. With `ln=0`, x then moves right by the width and y stays. With `ln=True` (lines 85, 92, 98 and 114), x goes to the left margin and y down by h. |
| Fpdf.AfterMultiCell | utils/pdf_utils.py:59 | Assumed fpdf rule, with no contract of its own and not proved: `multi_cell` puts a paragraph of the measured number of lines at the cursor. The cursor then goes to the left margin, lines × h lower. The same call is at lines 123, 127 and 141. |
| Fpdf.AfterSetXY | utils/pdf_utils.py:62 | Assumed fpdf rule, with no contract of its own and not proved: `set_xy(x, y)` puts the cursor at (x, y). |
| Fpdf.AfterSetY | utils/pdf_utils.py:82 | Assumed fpdf rule, with no contract of its own and not proved: `set_y(y)` with y ≥ 0 puts y there and x at the left margin. |
| Fpdf.AfterSetX | utils/pdf_utils.py:83 | Assumed fpdf rule, with no contract of its own and not proved: `set_x(x)` with x ≥ 0 puts x there and leaves y. |
| Fpdf.AfterAddPage | utils/pdf_utils.py:77 | Assumed fpdf rule, with no contract of its own and not proved: `add_page` starts a new page and puts the cursor at its top-left margin. The same call is at line 135. |
| Fpdf.AfterImage | utils/pdf_utils.py:137 | Assumed fpdf rule, with no contract of its own and not proved: `image` with an explicit x and y puts a picture there and leaves the cursor. The same call is at line 79. |
| Fpdf.AfterLine | utils/pdf_utils.py:106 | Assumed fpdf rule, with no contract of its own and not proved: `line` draws a rule and leaves the cursor. |
| PdfUtils.CustomPdf.constructor | utils/pdf_utils.py:69 | A new document has no page and no mark, and its cursor is at the left and top margins. This is the fpdf start state, assumed and not proved. |
| PdfUtils.CustomPdf.Ln | utils/pdf_utils.py:40 | The object's fields change in place exactly as `Fpdf.AfterLn` describes, and nothing else changes. |
| PdfUtils.CustomPdf.Cell | utils/pdf_utils.py:39 | The object's fields change in place exactly as `Fpdf.AfterCell` describes, including the zero-width case. |
| PdfUtils.CustomPdf.MultiCell | utils/pdf_utils.py:59 | The object's fields change in place exactly as `Fpdf.AfterMultiCell` describes. |
| PdfUtils.CustomPdf.SetXY | utils/pdf_utils.py:62 | The object's fields change in place exactly as `Fpdf.AfterSetXY` describes. |
| PdfUtils.CustomPdf.SetY | utils/pdf_utils.py:82 | The object's fields change in place exactly as `Fpdf.AfterSetY` describes. |
| PdfUtils.CustomPdf.SetX | utils/pdf_utils.py:83 | The object's fields change in place exactly as `Fpdf.AfterSetX` describes. |
| PdfUtils.CustomPdf.AddPage | utils/pdf_utils.py:77 | The object's fields change in place exactly as `Fpdf.AfterAddPage` describes. |
| PdfUtils.CustomPdf.Image | utils/pdf_utils.py:137 | The object's fields change in place exactly as `Fpdf.AfterImage` describes. |
| PdfUtils.CustomPdf.Line | utils/pdf_utils.py:106 | The object's fields change in place exactly as `Fpdf.AfterLine` describes. |
| PdfUtils.ColumnWidth | utils/pdf_utils.py:32 | The columns and one spare column share fpdf's page width `w` exactly. That width is A4's 595.28 points in millimetres, slightly over 210. |
| PdfUtils.Truncate | utils/pdf_utils.py:50 | `int()` truncates toward zero. |
| PdfUtils.LineEstimate | utils/pdf_utils.py:50 | For a non-negative width, the estimate is at least 1 and is the whole part of width/column + 1. |
| PdfUtils.RowHeightOf | utils/pdf_utils.py:46-51 | Specification function, with no contract of its own: the maximum of 7 and 5 mm per estimated line of each cell. `RowHeightBounds` characterises it. |
| PdfUtils.RowHeightBounds | utils/pdf_utils.py:46-51 | A row is at least 7 mm high and at least 5 mm per estimated line of each cell. It is 7 mm or exactly one cell's estimate. |
| PdfUtils.MaxLineHeight | utils/pdf_utils.py:46-52 | The first pass over a row computes the row height that `RowHeightBounds` characterises, and the cell texts in order. |
| PdfUtils.AfterHeader | utils/pdf_utils.py:36-40 | Specification function, with no contract of its own: one 7 mm box per column from the cursor, then a line 7 mm lower. `TableWithoutRows` states its marks and cursor. |
| PdfUtils.AfterRow | utils/pdf_utils.py:55-63 | Specification function, with no contract of its own: one paragraph per cell from the row's top, then a line one row height lower. `RenderRow` and `TableShape` state its properties. |
| PdfUtils.TableDoc | utils/pdf_utils.py:30-63 | Specification function, with no contract of its own: the header, then the rows in order. `CreateTable` draws it, and `TableShape` states its properties. |
| PdfUtils.CustomPdf.CreateTable | utils/pdf_utils.py:30-63 | The table drawn in place is the table layout: header boxes, then each row's cells, each row one row height lower. |
| PdfUtils.CustomPdf.RenderRow | utils/pdf_utils.py:55-62 | Each cell is placed at the row's top, one column width right of the previous, and the cursor returns to the row's top. |
| PdfUtils.TableWithoutRows | utils/pdf_utils.py:36-40 | A table without rows is one header box per column on the cursor's line, and the cursor moves 7 mm down. |
| PdfUtils.TableShape | utils/pdf_utils.py:30-63 | The table calls no `add_page`. It only adds 7 mm header boxes and 5 mm-line cell paragraphs, and ends at least 7 mm per row below its start. |
| PdfUtils.Classify | utils/pdf_utils.py:111-141 | An entry is the preview exactly when its question is "Aperçu du Dataset". It is a chart exactly when its question is not that and its answer is a string ending in ".png". Anything else is written as "Réponse: " and its text. |
| PdfUtils.OtherAnswerIsText | utils/pdf_utils.py:125 | A non-string answer is never drawn as a chart. |
| PdfUtils.RenamedChartIsImage | utils/pdf_utils.py:125 | A chart moved by `handle_query` is still drawn as a chart. |
| PdfUtils.ImageHeight | utils/pdf_utils.py:128 | The chart keeps its proportions at 70 mm wide. |
| PdfUtils.PageBreakNeeded | utils/pdf_utils.py:129-133 | Reference predicate, with no contract of its own: the room left, 297 − y − 15, is less than the chart's height plus 5. `ImagePlacement` and `TallChartOverflows` state what follows from it. |
| PdfUtils.ChartPlace | utils/pdf_utils.py:129-135 | Specification function, with no contract of its own: on a break, `ln(available + 20)` then `add_page`; otherwise the cursor as it is. `ImagePlacement` states where the chart lands. |
| PdfUtils.ImageDoc | utils/pdf_utils.py:129-139 | Specification function, with no contract of its own: the chart at its place, 70 mm wide, then the cursor 5 mm past it. `ImagePlacement` states its properties. |
| PdfUtils.ImagePlacement | utils/pdf_utils.py:129-139 | When the page-break test fires, the chart goes on a new page at the top margin. Otherwise it stays at the cursor and ends at least 5 mm above the bottom margin. The cursor then moves 5 mm past it. |
| PdfUtils.TallChartOverflows | utils/pdf_utils.py:129-137 | The test is made once: a chart taller than a page minus its margins forces a break and still runs past the bottom margin. |
| PdfUtils.EntryShape | utils/pdf_utils.py:101-144 | Each entry starts with the blue rule and only adds marks. It calls `add_page` only for a chart. A non-preview entry's first paragraph is its question; the preview has no 10 mm paragraph. |
| PdfUtils.EntryDoc | utils/pdf_utils.py:101-144 | Specification function, with no contract of its own: the rule, then the preview, chart or text layout chosen by `Classify`. `EntryShape` states its properties. |
| PdfUtils.PreviewDoc | utils/pdf_utils.py:111-120 | Specification function, with no contract of its own: the title, then the table of the first three rows and a 20 mm gap. `PreviewShape` states its properties. |
| PdfUtils.ChartEntryDoc | utils/pdf_utils.py:122-144 | Specification function, with no contract of its own: the question, the notice, the chart and a 5 mm gap. `ChartEntryShape` states its properties. |
| PdfUtils.TextEntryDoc | utils/pdf_utils.py:122-144 | Specification function, with no contract of its own: the question, the answer and two 5 mm gaps. `TextEntryShape` states its properties. |
| PdfUtils.PreviewShape | utils/pdf_utils.py:111-120 | The preview adds its title and the table with no `add_page`, and no 10 mm paragraph. |
| PdfUtils.ChartEntryShape | utils/pdf_utils.py:123-139 | A chart entry starts with its question and calls `add_page` at most once. |
| PdfUtils.TextEntryShape | utils/pdf_utils.py:123-142 | Any other entry adds exactly its question and answer paragraphs, with no `add_page`. |
| PdfUtils.EntriesShape | utils/pdf_utils.py:101-144 | Over the whole log, marks only grow, by at least one per entry, and `add_page` is called at most once per chart entry. |
| PdfUtils.EntriesDoc | utils/pdf_utils.py:101-144 | Specification function, with no contract of its own: the entries' layouts in order. `EntriesShape` states its properties. |
| PdfUtils.HeaderDoc | utils/pdf_utils.py:76-99 | The header fills page 1 and leaves the cursor at the left margin, 81 mm down. |
| PdfUtils.RenderHeader | utils/pdf_utils.py:76-99 | The header drawn in place is the header layout. |
| PdfUtils.RenderEntry | utils/pdf_utils.py:101-144 | One loop iteration draws exactly the entry's layout. |
| PdfUtils.RenderChart | utils/pdf_utils.py:123-139 | The chart branch draws exactly the chart-entry layout, including the page break. |
| PdfUtils.RenderText | utils/pdf_utils.py:123-144 | The text branch draws exactly the text-entry layout. |
| PdfUtils.ReportFileName | utils/pdf_utils.py:151-152 | Specification function, with no contract of its own: "analysis-", the dataset's base name, "-", the time and ".pdf". `ReportFileNameShape` states its shape. |
| PdfUtils.ReportFileNameShape | utils/pdf_utils.py:151-152 | The report name starts with "analysis-", the dataset's base name and "-". It ends in ".pdf" and has no '/' when the time has none. |
| PdfUtils.OutputPath | utils/pdf_utils.py:156 | Specification function, with no contract of its own: "Results" joined with the report name. `OutputPathShape` states its value. |
| PdfUtils.OutputPathShape | utils/pdf_utils.py:156 | The report lies directly in "Results" under its file name. |
| PdfUtils.CreateKaiPdf | utils/pdf_utils.py:67-158 | The document is the header followed by every log entry's layout, in order, and the returned path is the report's output path. |

## Left out

- Streamlit itself is replaced by a state and the button events: widgets, markdown, spinners, error banners, page configuration and rerun semantics. The `st.text_area` binding of `input_text` becomes the `Edit` event.
- `SessionState.Session.constructor`: the start-up block of app.py sets `out_text` instead of `output_text` (app.py:64-65). The model starts `output_text` at "" as intended. No behaviour depends on the difference, because the response area is shown only after a question sets `output_text`.
- The remaining start-up keys (study date, selected dataset, shape, column names) and the dataset information panel are display only.
- The chat model (`SmartDataframe.chat`, the AWS and BambooLLM wrappers, `using_streamlite.py`) is opaque. Its outcome is an input: a returned value, or an exception.
- Non-string answers are kept only through their `str()` text.
- Reading CSV and Excel files, JSON load and dump, `input()` and `print` are I/O. `os.listdir` becomes a listing parameter, kept in the given order.
- File existence, `rename` and `makedirs` are left out. The existence of the temporary chart is an input.
- The clock (`strftime`) and `uuid4` are inputs: formatted text and a 32-digit hexadecimal string.
- `App.UploadDispatch`: after "Unsupported file type" the source goes on with `data = None`. It passes that value to `PandasConnector` or `SmartDataframe` (app.py:152-158), whose handling of None is not part of this model. It sets `st.session_state.sdf` (app.py:160) and fails at the latest at `data.shape` (app.py:161). The model stops at the dispatch.
- The rest of the upload flow (the SmartDataframe configuration and connector) is not modelled.
- `PyRe.ParseBody`: only the regular-expression subset the lookup pattern uses is modelled (literals, `.`, `.*`, `^` and `$`). Other metacharacters make the pattern unparsed. Subjects are taken to hold no newline, so `$` matches only at the end.
- `PyStr.SplitExt`: POSIX paths only. Its contract omits which dotted names have no extension (leading dots only), which the definition `ExtensionStart` follows.
- `Fpdf`: the cursor rules (`Fpdf.AfterLn` to `Fpdf.AfterLine`) are those of PyFPDF 1.7.2. That is the fpdf whose `add_font(..., uni=True)` and `txt=` the report uses. The rules are taken as assumptions, since fpdf's code is not part of this model. `Fpdf.Margin` is that version's default margin of 28.35 points, about 10.001 mm. Fonts, colours, borders, alignment, the footer and the actual drawing are not modelled. Automatic page breaks are also left out: `set_auto_page_break` is not modelled, so the model starts pages only where `add_page` is called. The table's column width uses fpdf's own A4 width (`Fpdf.PageWidth`, 595.28 points in millimetres). The logo, the rule and the break test use the literals 210 and 297 that the report code writes.
- `Fpdf.AfterMultiCell`: the number of lines `multi_cell` wraps into is an input, as are `get_string_width` and the chart image's size. Real numbers stand for floats, with no rounding.
- `PdfUtils.CellText`: a cell is `str(value)` with its measured width; pandas' `head(3)` becomes the first three rows.
- `CreateDatasetFieldsDescription.DescribeColumns`: column names are strings. pandas column labels of other types are not modelled.

## Findings

| source | as written | input that shows it | evidently intended | confidence | as-written member | corrected member |
|---|---|---|---|---|---|---|
| utils/handle_query.py:18-19 | `response.endswith(".png")` is called on any answer, so a non-string answer raises AttributeError after the output text is set | a prompt "mean age" whose chat call returns the number 42 | test `isinstance(response, str)` first, as `create_kai_pdf` does, so that every answer is logged and the buttons flip | high (not executed) | HandleQuery.NonStringAnswerNotRecorded | HandleQuery.AfterQueryChecked |

`HandleQuery.HandleQuery` and `HandleQuery.AfterQuery` keep the callback as written in utils/handle_query.py. That module is part of the repository, but app.py does not call it. `HandleQuery.AfterQueryChecked` is the corrected transition. `HandleQuery.CheckedQueryAgrees` proves that the two agree wherever the written one does not raise.
