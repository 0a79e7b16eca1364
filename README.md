# Bulk mail sender — a verified model of the dispatch core

The application is a small Flask service. It sends one personalised message to each
address of an uploaded recipient list (CSV), a batch at a time. It keeps these between
runs:

- a persisted counter, the *cursor*: the index of the next recipient;
- a *stopper*: the batch size;
- a saved or built-in message template;
- an optional résumé attachment;
- an in-memory log that the web page polls.

A run (`send_emails_task`, started from `start_sending`) does the following in order:

1. Clears the log.
2. Checks the configuration.
3. Loads the list:
   - it takes the first column whose header mentions "email";
   - it drops missing cells;
   - it strips the remaining ones.
4. Computes the batch window `[cursor, min(cursor + stopper, len))`.
5. Logs in to the mail server.
6. For each index of the window:
   - renders the template with `Hi <name>`, where the name is derived from the address by `extract_name`;
   - attaches the résumé when it can;
   - sends the message;
   - on success, moves the cursor past that index.

The model is written in Dafny:

| file | module | what it holds |
|---|---|---|
| `wrappers.dfy` | `Wrappers` | the `Option` type |
| `text.dfy` | `Text` | the Python string behaviour the code relies on: `str.isspace`, `strip`, `split()`, `join`, ASCII `lower` |
| `names.dfy` | `Names` | `extract_name`, and an independent description of it as the capitalised runs of letters of the local part |
| `recipients.dfy` | `Recipients` | the email-column pick and the normalisation of the list |
| `templates.dfy` | `Templates` | the built-in templates; the choice between them and the saved template made by `start_sending`; `body.format(greeting=…)` as a parser (`Parse`) and an expander (`Expand`) |
| `uploads.dfy` | `Uploads` | `allowed_file`, with POSIX `os.path.splitext` |
| `dispatch.dfy` | `Dispatch` | see below |

`dispatch.dfy` holds one run in two forms:

- the function `Run`, a specification that states the state the run leaves behind: the cursor, the log and the SMTP session;
- the class `Dispatcher`, whose fields `cursor` and `log` are the application's lasting state, and whose method `RunOnce` performs the run step by step and is proved to end in the state that `Run` describes.

The outside world is a value of type `Environment`. It records:

- what reading the list file yields;
- whether login succeeds;
- whether the résumé exists and can be read when each message is prepared;
- which recipient indices the server accepts.

## Model

| member | source | states |
|---|---|---|
| Names.ExtractNameRuns | app.py:117-127 | the name is "there" when the local part has no letters; otherwise it is the capitalised maximal runs of ASCII letters of the text before the first `@`, joined by single spaces (a description independent of the replace/strip/split pipeline) |
| Names.ExtractNameFallback | app.py:125 | the fallback "there" is returned exactly when the local part contains no ASCII letter |
| Names.ExtractNameShape | app.py:122-124 | otherwise the name is capitalised words separated by single spaces, with no space at either end |
| Names.ExtractNameLetters | app.py:120-124 | up to case, the name holds exactly the letters of the local part, in order |
| Names.ExtractNameExamples | app.py:117-127 | "john.doe@x.com" gives "John Doe", "a1b2@x.com" gives "A B", "@x.com" gives "there" |
| Names.LocalPartSpec | app.py:120 | `split('@')[0]` is the prefix of the address up to, and not including, the first `@` |
| Names.BlankSpec | app.py:122 | `re.sub('[^a-zA-Z]', ' ', …)` keeps each letter in place and turns every other character into a space |
| Names.CapitalizeSpec | app.py:124 | `capitalize()` turns a word of letters into one capital followed by lower case, and changes only the case |
| Text.StripSpec | app.py:122 | `strip()` removes exactly the whitespace at both ends; the result is empty exactly when the input is all whitespace |
| Text.WordsStrip | app.py:122-124 | stripping before `split()` does not change the words |
| Recipients.RecipientList | app.py:160-165 | there is no list exactly when no header contains "email" in lower case; otherwise the list comes from the first such column |
| Recipients.EmailColumn | app.py:160 | the chosen column is the first whose lower-cased header contains "email" |
| Recipients.AddressesArePresentCells | app.py:164-165 | the k-th address is the stripped k-th present cell: missing cells are dropped and the row order is kept |
| Recipients.AddressesStripped | app.py:165 | no address has whitespace at either end |
| Recipients.NoneMissing | app.py:164 | a column with no missing cell loses no row |
| Recipients.EmptyList | app.py:160-165 | the normalised list is empty exactly when there is an email column and it has no rows or no row with a value; in the second case `.str.strip()` raises |
| Recipients.EmailColumnWithoutValue | app.py:160-165 | an "Email" column with one row and no value is the chosen column, and `.str.strip()` raises on it |
| Recipients.ContainsIsSubstring | app.py:160 | the `in` test on the header is substring search |
| Recipients.MentionsEmailIgnoresCase | app.py:160 | the header match ignores the case of ASCII letters |
| Templates.ResolveChoice | app.py:424-434 | a built-in template is used exactly when the saved name (default "default") is a built-in and no non-empty body is saved; otherwise the saved subject and body are used, defaulting to "Hello" and "Hi {greeting}" |
| Templates.NothingSavedUsesDefault | app.py:424-431 | with nothing saved, the "default" built-in is used |
| Templates.BuiltInIgnoresSavedSubject | app.py:429-431 | when a built-in is used, a saved subject has no effect |
| Templates.ParseUnparse | app.py:200 | every sequence of literal characters and `{greeting}` fields is the reading of exactly one body |
| Templates.UnparseParse | app.py:200 | a body that `format` accepts is the writing of the pieces it is read as |
| Templates.RenderVerbatim | app.py:200 | a body without braces is sent unchanged, whatever the greeting |
| Templates.RenderPrefix | app.py:200 | brace-free text in front of a body that renders is copied to the front of the result |
| Templates.RenderDefaultBody | app.py:145 | the fallback body "Hi {greeting}" renders as "Hi " followed by the greeting |
| Templates.DefaultTextHasNoBraces | app.py:89-99 | the fixed text of the "default" body contains no brace |
| Templates.ConciseTextHasNoBraces | app.py:103-113 | the fixed text of the "concise" body contains no brace |
| Templates.DefaultRenders | app.py:87-100 | the "default" body renders as the greeting followed by its fixed text |
| Templates.ConciseRenders | app.py:101-114 | the "concise" body renders as the greeting followed by its fixed text |
| Templates.BuiltInsRender | app.py:81-115 | both built-in bodies render for every greeting, and the result starts with the greeting |
| Templates.ResolvedRenders | app.py:424-434 | the resolved body renders for every recipient whenever the saved body is absent or is accepted by `format` |
| Uploads.ExtShape | app.py:48 | an extension, when there is one, is a dot followed by characters that are neither dots nor slashes |
| Uploads.ExtOfName | app.py:48 | a stem whose last component has a non-dot character, followed by a dot-led suffix free of dots and slashes, has that suffix as its extension |
| Uploads.ExtNeedsStem | app.py:48 | conversely, a name has an extension only when the last path component has a character other than a dot before the extension's dot (so ".csv" and "..csv" have none) |
| Uploads.AllowedFileSpec | app.py:45-48 | for sets of non-empty extensions, a name is allowed exactly when it has an extension whose lower-case form is in the set |
| Uploads.UpperCaseAccepted | app.py:45-48 | "contacts.CSV" is an allowed list file |
| Uploads.LastDotCounts | app.py:45-48 | "q1.report.xlsx" is an allowed list file |
| Uploads.ResumeAccepted | app.py:45-48 | "cv.pdf" is an allowed résumé |
| Uploads.ResumeNotRecipientFile | app.py:45-48 | "cv.pdf" is not an allowed list file |
| Uploads.HiddenFileRefused | app.py:45-48 | ".csv" has no extension and is refused |
| Uploads.DotsOnlyRefused | app.py:45-48 | "..csv" has no extension and is refused |
| Uploads.DirectoryDotRefused | app.py:45-48 | a dot in a directory name ("lists.csv/contacts") does not make an extension |
| Dispatch.Dispatcher.RunOnce | app.py:131-227 | one run leaves the cursor, the log and the session exactly as `Run` describes them |
| Dispatch.Dispatcher.DeliverOnce | app.py:166-188 | the part after loading the list: the "Loaded" entry, the exhaustion check, the "Preparing" entry and the login |
| Dispatch.Dispatcher.SendBatch | app.py:191-227 | the send loop: it ends in the state the loop specification reaches from the cursor over the window, and then closes the session; throughout the loop the saved cursor stays between the start and the current index |
| Dispatch.Dispatcher.SendOne | app.py:192-223 | one pass of the loop is one step of the loop specification: render, résumé warnings, send, and the cursor moved past an accepted message; the saved cursor never moves back and ends at most one past the index handled |
| Dispatch.Dispatcher.ResetCounter | app.py:412-416 | a counter reset puts the cursor at 0 and appends its entry to the log |
| Dispatch.Dispatcher.constructor | app.py:65-74 | with no counter file the cursor is 0, and the log starts empty |
| Dispatch.RunAborts | app.py:148-188 | a run does not log in exactly when the configuration is incomplete, the list cannot be loaded or has no email column, the cursor is at or past the end, or login fails; such a run sends nothing, leaves the cursor alone and logs no success or failure |
| Dispatch.RunLoadFails | app.py:155-169 | a configured run logs only the load failure exactly when the list file cannot be read or `.str.strip()` raises on its email column |
| Dispatch.NoValueColumnFails | app.py:155-169 | a list whose "Email" column has one row and no value makes the run log "ERROR loading CSV file" and stop, sending nothing and keeping the cursor |
| Dispatch.RunWindow | app.py:171-223 | a run sends to consecutive recipients from the cursor, at most `stopper` of them and never past the end; each message has the configured subject, the template rendered with that receiver's greeting, the résumé when it is available as that message is prepared, and the server's answer for that index; a run that logs in and does not die covers the whole window |
| Dispatch.RunCursor | app.py:216-219 | the cursor never moves back and, in total, moves at most one place per message sent; it stays put exactly when nothing was accepted, and otherwise sits right after the last accepted message, past any failure before it |
| Dispatch.RunCursorBounds | app.py:171-219 | started inside the list, the cursor stays inside the list and inside the batch window |
| Dispatch.RunLog | app.py:134-227 | the log is cleared at the start of each run and opens with "Email sending process started."; it holds one success entry per accepted message and one failure entry per refused one, in sending order; it ends with the closing entry when the session was closed |
| Dispatch.DeliverLog | app.py:166-227 | the exact log of a run that logged in: the opening entries, then for each message the résumé warnings and its outcome, then the closing entry if the session was closed |
| Dispatch.RunCrash | app.py:200-227 | a run that logged in closes the session exactly when it did not die; it dies exactly when its window is non-empty and `format` rejects the body; it then has sent nothing and left the cursor alone |
| Dispatch.DefaultBatch | app.py:440 | with no saved stopper, a run that logs in and does not die sends to the next 100 recipients, or to all that remain when fewer are left |
| Dispatch.RunExhausted | app.py:166-176 | once the cursor reaches the end of the list, a run only logs "Loaded" and "All emails have already been sent!", does not log in, and running again changes nothing |
| Dispatch.SkipPastFailure | app.py:216-223 | a failed recipient followed by an accepted one in the same batch is skipped for good: the cursor moves past both and the next run starts after them |
| Dispatch.BuiltInRunGreets | app.py:193-200 | with a built-in template the loop never dies; every message carries the template's subject and opens with its receiver's greeting |
| Dispatch.ThreeRecipientsFirstRun | app.py:171-223 | with three recipients, a stopper of 2 and every message accepted, the first run sends to the first two and leaves the cursor at 2 |
| Dispatch.ThreeRecipientsSecondRun | app.py:171-223 | the second run sends to the third recipient and leaves the cursor at 3 |
| Dispatch.ThreeRecipientsThirdRun | app.py:174-176 | the third run only reports that everything was sent |
| Dispatch.CampaignRun | app.py:171-223 | a logged-in run whose every message is accepted sends to the whole window, in order, and ends with the cursor at the end of the window |
| Dispatch.UptoCursorGrows | app.py:216-220 | each pass of the loop leaves the saved cursor where it was or moves it forward, never past the index just handled plus one, so a run stopped after any pass has lost no progress |
| Dispatch.UptoCursor | app.py:191-223 | inside the loop, the cursor is the one the attempts so far determine (`CursorAfter`) |
| Dispatch.CursorAfterRule | app.py:216-219 | that cursor is the start while nothing was accepted, and one past the last accepted index otherwise |
| Dispatch.UptoLog | app.py:191-223 | inside the loop, the log is the log before the loop followed by the entries of each attempt so far |
| Dispatch.EntriesReport | app.py:216-223 | the success entries of the loop's log name the accepted receivers in order, and its failure entries the refused ones |
| Dispatch.CrashPersists | app.py:200 | once `format` has raised, later indices change nothing: the run is over |
| Dispatch.MessageNamesReceiver | app.py:210-223 | the success, failure and attachment-warning entries name their receiver |

## Left out

- Flask routes, JSON request parsing, file uploads, `secure_filename` and the
  configuration and counter files. The counter file becomes the field
  `Dispatcher.cursor`; `load_config` and `save_config` become the value handed to a run.
- `save_counter` raising inside the send `try` block. The model does not capture that an
  accepted message can then be logged as a failure.
- smtplib, MIME and the network. `sendmail` succeeding or raising for index `i` is the
  input `env.accepts(i)`.
- A login failure leaves the connection open. This is not observable in the model.
- The contents of the message beyond receiver, subject, body and whether the résumé is attached.
- pandas. The list file is a `Table` of text columns. Non-text headers and cells are not
  modelled, and neither is the reason a file cannot be read. Of pandas' type inference only
  the column with rows but no value is modelled (it is not text, so `.str.strip()` raises and
  the run logs a load failure, `StripRaises`); a column whose values all read as numbers
  raises in the program too, but is a list of text addresses here.
- Timestamps of log entries, exception texts in error entries, `time.sleep` and the
  background thread.
- A counter reset that happens while a run is in progress is not modelled, because runs are atomic here.
- JSON `null` values for saved template fields. Here a field is either absent or text.
- The saved `template_name` that is passed to the run but never used.
- `str.format` beyond the `{greeting}` field and doubled braces:
  - conversions and format specifications such as `{greeting!r}` are treated as a failure, although Python accepts them;
  - so are index and attribute access on the field, such as `{greeting[0]}` and `{greeting.upper}`, although Python accepts them; for such a body the modelled run dies where the real one sends;
  - so are fields with other names or positions, which Python rejects.
- Templates.Render: does not model conversions, format specifications, or index and attribute access on the field, for the reason above.
- `str.lower`, `str.capitalize` and `re` on non-ASCII letters. Only ASCII case is modelled.
- `extract_name`'s `except` branch. It cannot be reached for a text address.
- `int()` of a non-numeric or `null` stopper, which raises in the background thread. A saved stopper is an integer here; an absent one is 100 (`Dispatch.Stopper`).

Behaviour of the code worth knowing:

- A later success moves the cursor past an earlier failure in the same batch, so the failed
  recipient is never retried (`RunCursor`, `SkipPastFailure`).
- "Loaded N emails" is logged before the check that everything was already sent
  (`RunExhausted`).
- `quit` is called only on the normal path. A run that dies because `format` rejected the body
  leaves the session open (`RunCrash`).
- Cells that hold only whitespace are kept as empty addresses. Only missing cells are dropped
  (`AddressesArePresentCells`).
