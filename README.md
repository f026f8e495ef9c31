# Just Draft — a Dafny model of its core logic

Just Draft is a single-page Streamlit app (`app.py`). A user signs in with a
shared password and submits free text, an image or a voice recording. A
hosted generative model turns the input into JSON with `tasks` and `memos`,
which the app shows, keeps in a per-session history and exports. This
project models the logic under the UI and proves what it does:

- **Strings** (`strings.dfy`): the pieces of Python that the core relies on.
  These are a value that may be `None` together with its f-string form
  (`"None"`), the `in` substring test (proved equal to "occurs at some
  index") and `str.strip()` with Python's whitespace set.
- **Markdown** (`markdown.dfy`): `convert_to_markdown`, a method that grows
  the document in two loops. It is proved equal to a reference rendering.
  Lemmas give the document's exact lines when no field holds a line break.
  They also show that each bullet reads back as the task or memo it stands
  for, provided a task's category holds no ']' and its action no priority
  glyph.
- **Extraction** (`extraction.dfy`): `process_input`. It covers the
  empty-input guard and the ordered content parts. It also covers the
  multimodal test on model names and the loop over candidate models, which
  skips text-only models when media is present, returns the first success
  and raises once every candidate has failed. The per-model work inside the
  `try` (building the model, the request and the JSON parse of its reply)
  is an oracle `call(model, parts)` that either succeeds with parsed data
  or fails with an error text.
- **Session** (`session.dfy`): `st.session_state` as a class over a map
  from key to value. Its methods are `check_password`, its callback
  `password_entered`, `init_session_state` and `reset_app`. A safety lemma
  shows that no sequence of user actions opens the gate unless the secret
  itself is typed.
- **Summary** (`summary.dfy`): the label that `main` gives a history entry.
  It is a text preview, or "Audio", "Image" or "Text" by precedence.

Two consequences of how `app.py` is written:

- A JSON parse failure counts as a failed candidate: `json.loads`
  (app.py:175) sits inside the `try`, so its error is recorded like any
  other and the next candidate is tried. The oracle's `Failure` covers
  both.
- `reset_app` (app.py:63-67) keeps `history`: it only drops
  `current_result` and bumps `reset_key`.

## Model

| member | source | states |
|---|---|---|
| Strings.ContainsIff | app.py:161 | Python's `p in s`, as computed, holds exactly when `p` occurs in `s` at some index |
| Strings.StripEmptyIff | app.py:112 | `s.strip()` is empty (falsy) exactly when every character of `s` is Python whitespace |
| Markdown.ConvertToMarkdown | app.py:195-211 | the string built by the two loops is the title, the Tasks heading, one bullet line per task in order, the Memos heading and one bullet line per memo in order |
| Markdown.SplitTaskLines | app.py:200-205 | when no shown field holds a line break, the task bullets split into exactly one line per task, in input order |
| Markdown.SplitMemoLines | app.py:208-209 | when no memo content holds a line break, the memo bullets split into exactly one line per memo, in input order |
| Markdown.DocumentLines | app.py:197-211 | when no category, action, deadline or memo content holds a line break, the document's lines are "# Brain Cleaner Results", a blank line, "## ✅ Tasks", the task bullets, a blank line, "## 💡 Memos", the memo bullets, and the empty piece after the final line break |
| Markdown.EmptyDocument | app.py:197-199 | with no tasks and no memos the output is exactly the title and the two section headings |
| Markdown.EmptyDocumentLines | app.py:197-211 | with no tasks and no memos the lines are the three headings and blank lines, with no bullet |
| Markdown.DeadlineRoundTrip | app.py:203-204 | the suffix " (📅 d)" is present exactly when the deadline is truthy, and it reads back as that deadline |
| Markdown.TaskRowRoundTrip | app.py:201-205 | when the category holds no ']' and the action neither 🔥 nor 🔹, a task bullet reads back as the category and action as printed (`None` for a missing field), the 🔥 glyph exactly when the priority is "High", and the deadline exactly when it is truthy |
| Markdown.MemoRowRoundTrip | app.py:209 | a memo bullet reads back as its content as printed ("None" when missing) |
| Extraction.EmptyInputIff | app.py:112 | the guard fires exactly when the text is all whitespace and there is neither an image nor audio |
| Extraction.AssembleParts | app.py:125-152 | the parts are the text when it is non-empty and the default instruction otherwise, then the image with its MIME type if given, then audio as "audio/wav" if given; the length is 1 plus one per medium |
| Extraction.BlankTextKeptWithMedia | app.py:112-129 | whitespace-only text with media passes the guard and is sent as part 0 unchanged, not replaced by the default instruction |
| Extraction.IsMultimodal | app.py:161 | a model name is multimodal exactly when it contains "1.5", "2.0", "2.5" or "gemini-3" |
| Extraction.CandidatesAreMultimodal | app.py:119-122 | both models of the fixed candidate list pass the multimodal test, so with that list no candidate is skipped |
| Extraction.NameWithoutTagsIsTextOnly | app.py:161-163 | a name with no '.' and no '3' (such as "gemini-pro") is not multimodal, so it is skipped whenever media is present |
| Extraction.RunCandidates | app.py:154-183 | the loop gives the reference search's result and calls exactly the models that the reference trace names |
| Extraction.FallbackFoundIff | app.py:156-176 | the search returns `d` exactly when some candidate is not skipped, succeeds with `d`, and every earlier candidate that was not skipped failed |
| Extraction.FallbackExhausted | app.py:154-183 | the search is exhausted exactly when every candidate that is not skipped fails; its error is that of the last candidate called, or the initial `None` when all were skipped |
| Extraction.ConsultedAreEligible | app.py:161-172 | every model called is a candidate that the multimodal test did not skip |
| Extraction.ConsultedShape | app.py:172-182 | every model called before the last failed; on success the last one gave the data; on exhaustion all failed |
| Extraction.ConsultedIsEligiblePrefix | app.py:156-176 | the models called are the candidates that are not skipped, in list order: all of them when every one fails, and exactly those up to and including the first success otherwise |
| Extraction.ConsultedDetermines | app.py:156-182 | two providers that agree on the models called give the same result and the same calls |
| Extraction.ErrorTextIrrelevant | app.py:178-182 | the error text ("404", "not found" or anything else) never changes whether, or with what data, the search succeeds |
| Extraction.SecondCandidateRescues | app.py:156-176 | when the first candidate fails and the second succeeds, the search returns the second one's data after calling exactly those two |
| Extraction.ProcessInput | app.py:107-186 | the method's result and model calls are those of the reference `Process` and `ProcessCalls` |
| Extraction.EmptyResultIff | app.py:112-113 | `process_input` takes the early `return {}` (`EmptyResult`) exactly for the empty input, and then calls no model |
| Extraction.ProcessReturnsFirstSuccess | app.py:154-176 | for a non-empty input the result is `d` exactly when the first candidate in list order that succeeds gives `d` |
| Extraction.ExhaustedByLast | app.py:154-186 | when the last candidate is never skipped, an exhausted search carries that candidate's error, and that candidate failed |
| Extraction.ProcessRaisesLastError | app.py:184-186 | for a non-empty input it raises exactly when every candidate that is not skipped fails; then "gemini-1.5-flash" failed and the message is "All models failed. Last error: " followed by its error |
| Session.SessionState.InitSessionState | app.py:57-61 | an empty history and a reset counter of 0 are added only where the keys are absent, and every existing entry is kept |
| Session.SessionState.PasswordEntered | app.py:19-24 | a matching password sets `password_correct` to true and deletes `password`; a mismatch sets it to false; a missing key raises KeyError and changes nothing |
| Session.SessionState.ResetApp | app.py:63-67 | `current_result` is dropped, then `reset_key` goes up by 1; a missing counter raises AttributeError and a non-number raises TypeError, after the drop |
| Session.SessionState.CheckPassword | app.py:15-45 | access is granted exactly when the secret is configured and `password_correct` is truthy; the screen shown is the configuration error, or the prompt with the wrong-password message exactly when `password_correct` is present and falsy |
| Session.MissingSecretFailsClosed | app.py:28-30 | without `APP_PASSWORD` the gate is closed whatever the session holds, and a submission changes nothing |
| Session.CorrectPasswordGrants | app.py:20-22 | when the secret is a string, typing and submitting it opens the gate, deletes the stored password and changes nothing else |
| Session.WrongPasswordPrompts | app.py:23-24 | typing and submitting anything else keeps the gate closed with the wrong-password message |
| Session.NonStringSecretNeverMatches | app.py:20-24 | a secret that is not a string (a TOML number, say) never equals the typed text, so each submission sets `password_correct` to false and the gate stays closed |
| Session.CorrectEntryIdempotent | app.py:19-22 | submitting the correct password a second time leaves the session as the first submission left it |
| Session.ApplyKeepsLocked | app.py:19-24 | no single action (typing a non-secret, submitting, resetting, initialising) unlocks a locked session |
| Session.NoAccessWithoutSecret | app.py:33-34 | no sequence of such actions opens the gate of a locked session unless text equal to the secret under Python `==` is typed |
| Session.ResetBumpsCounter | app.py:63-67 | with an integer counter, reset raises nothing, removes only `current_result`, adds exactly 1 to `reset_key`, keeps every other key and leaves the gate as it was |
| Session.InitThenResets | app.py:57-67 | after initialisation, `n` resets raise the counter by exactly `n` |
| Summary.SourceSummary | app.py:297-300 | the label is at most 18 characters; for non-empty text it is the first 15 characters (all of a shorter text) and "..."; otherwise "Audio", else "Image", else "Text" |
| Summary.SummaryNamesDominantSource | app.py:297-300 | reading the label back gives the dominant input: text over audio over image, with the preview of the text |
| Summary.ImageOverriddenByAudioOrText | app.py:297-300 | an uploaded image does not change the label once audio or text is present |

## Left out

- The provider SDK calls inside the `try` (`GenerativeModel`, `generate_content`, app.py:165-172) and `json.loads` (app.py:175) are one oracle `call(model, parts)`. Their behaviour is not modelled, only success with data or failure with an error text. The system prompt (app.py:72-102) is a constant the oracle receives and is not modelled.
- Extraction.ProcessInput: `genai.configure` (app.py:115) is left out. It runs once, before the loop and outside the `try`, so an exception from it would escape `process_input` and no candidate would be tried. The model takes it to return normally.
- Extraction.Process: a reply that parses to `{}` is kept apart as `Returned(d)`, although the Python caller receives the same value `{}` as from the early return of the empty-input guard.
- The "404" / "not found" test (app.py:180-181) is not modelled as a branch, because both of its arms continue with the next candidate.
- The candidate loop of `process_input` is factored out as `RunCandidates` over any list of names. `ProcessInput` runs it on the fixed list.
- File reads and `seek` on uploads (app.py:137-138, 148) are left out. An image is its MIME type and bytes, and audio is its bytes.
- Parsed JSON whose fields are not strings (numbers, lists) is left out. Task and memo fields are strings or missing/null (`None`).
- `convert_to_csv` (app.py:188-193) is left out. It is a thin wrapper over `pandas.DataFrame.to_csv`.
- `json.dumps` of the export (app.py:353) is left out.
- All Streamlit rendering, widgets, tabs, the data editor and download buttons (app.py:216-365) are left out. The password widget appears only as the action that stores the typed text under "password".
- `configure_page` (app.py:47-54) is left out; it sets page metadata only.
- The history entry itself (app.py:305-311), with its `time.time()` clock read, is left out. Only its summary label is modelled.
- Session values: `None` and floats have no `Value`, and an empty dict has no value of its own (`Object` is always truthy). The app stores only bools under `password_correct` and ints under `reset_key`, so the gate and reset never see them.
- Session.SessionState.PasswordEntered: Python `==` is modelled for strings, bools and ints (a bool equals the int 0 or 1). Other values compare equal only to the same `Object`, which stands in for equality of dicts and lists.
- Session.SessionState.ResetApp: any value other than an int or a bool under `reset_key` is modelled as raising TypeError, though a Python float would be incremented.
