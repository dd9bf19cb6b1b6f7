# YouTube transcript summariser: the string-processing core

The application (`app.py`) takes a YouTube link, fetches the video's
captions, asks a generative model for point-form notes at a chosen
difficulty, translates them into a chosen language and offers them for
download. Everything but a small pure core is user interface or a call into
an outside service. This project models that core in Dafny and proves what
it does:

- `VideoUrl`: `extract_video_id`, written with a faithful model of
  Python's `in`, `find` and `split` (module `PyStrings`). The watch branch
  takes the text after the FIRST `v=` of the URL, up to the next `v=`, then
  up to the first `&`. The short-link branch takes the text between the
  first and second `youtu.be/`, up to the first `?`. Any other URL gives no
  identifier. Beside the split-based definition stands a split-free
  reference predicate `IdAfter`, and the two are proved to agree.
- `Prompts`: `get_difficulty_prompt` and the `base_prompt` constant.
- `Transcript`: the `" ".join` of the segment texts.
- `LanguageTable`: the eleven-entry name-to-code table and its lookup.
- `Script`: the gating of the script body. Given the link, the two
  selections, the button and three services passed as arbitrary functions,
  it returns the list of service calls made and what the page shows.
- `Wrappers`: `Option` and `Result`.

Dafny `string` is a sequence of characters, like a Python `str`. The
triple-quoted `base_prompt` has one newline after `video `.

Where a natural reading of the code's intent and the code itself differ,
the model follows the code:

- The natural reading of the watch rule is "the identifier is the text after
  `v=` up to the next `&`". The code splits on every `v=`, so the identifier
  also stops at a second `v=`. It starts after the first `v=` in the whole
  URL, which can come before the watch marker.
- One would expect an identifier to be non-empty. The code can return `""`
  (for `youtu.be/?x`), and the caller treats `""` like `None`.
- The error shown for an unusable link is "Invalid YouTube URL."
  (`Screen.InvalidUrl`), not a shorter "Invalid URL.".

## Model

| member | source | states |
|---|---|---|
| PyStrings.Contains | app.py:30-32 | Python's `sub in s`: an occurrence exists, which needs `sub` no longer than `s`; it agrees with `find` (`ContainsIffFound`) |
| PyStrings.Split | app.py:31-33 | Python's `s.split(sep)` has at least one piece; `JoinSplit` and `SplitPiecesLackSep` are its partners |
| PyStrings.SplitOnePiece | app.py:31-33 | `s.split(sep)` has a single piece exactly when `sep` does not occur in `s` |
| PyStrings.SplitPiece | app.py:31-33 | Python's `s.split(sep)[i]` never contains `sep` |
| PyStrings.Join | app.py:40 | Python's `sep.join(xs)` starts with the first piece; `JoinSnoc`, `JoinLength` and `SplitJoin` are its partners |
| PyStrings.SplitJoin | app.py:40 | splitting `sep.join(xs)` on a one-character `sep` that no piece contains gives back `xs` |
| PyStrings.IndexOf | app.py:31-33 | the first occurrence of the separator that `split` cuts at: an occurrence, with none before it, or `None` when there is none |
| PyStrings.ContainsIffFound | app.py:30-32 | `sub in s` holds exactly when `find` finds `sub` |
| PyStrings.FirstPiece | app.py:31-33 | `s.split(sep)[0]` is a prefix of `s` with no occurrence starting inside it, ending at the first occurrence or at the end |
| PyStrings.SecondPiece | app.py:31-33 | when `sep` occurs, `s.split(sep)[1]` exists and is the first piece of what follows the first occurrence |
| PyStrings.JoinSplit | app.py:31-33 | joining the pieces of `s.split(sep)` with `sep` gives back `s` |
| PyStrings.SplitPiecesLackSep | app.py:31-33 | no piece of `s.split(sep)` contains `sep` |
| PyStrings.JoinSnoc | app.py:40 | `sep.join(xs + [x]) == sep.join(xs) + sep + x` for non-empty `xs` |
| PyStrings.JoinLength | app.py:40 | the joined length is the pieces' total plus one separator per neighbouring pair |
| VideoUrl.ExtractVideoId | app.py:27-34 | an identifier is returned exactly when the URL holds the watch marker or the short-link marker |
| VideoUrl.WatchMarkerHasParam | app.py:30-31 | every watch marker brings a `v=` 18 characters in, so `split("v=")[1]` exists |
| VideoUrl.IdAfterUnique | app.py:31-33 | the reference predicate `IdAfter` fixes at most one identifier |
| VideoUrl.IdAfterLacks | app.py:31-33 | an `IdAfter` identifier holds neither the cut character nor the stop text |
| VideoUrl.CutTwice | app.py:31-33 | for any text `rest`, `rest.split(stop)[0].split(cut)[0]` is the `IdAfter` identifier of `rest` (its longest prefix before the first `cut` or `stop`) and contains neither |
| VideoUrl.FirstParamNoLaterThanMarker | app.py:30-31 | the first `v=` of the URL is at or before every watch marker's own `v=` |
| VideoUrl.WatchBranch | app.py:30-31 | with a watch marker: the identifier is the substring after the first `v=` up to the next `&` or `v=`, and contains neither |
| VideoUrl.ShortBranch | app.py:30-33 | without a watch marker but with `youtu.be/`: the identifier is the substring after the first `youtu.be/` up to the next `?` or `youtu.be/`, and contains neither |
| VideoUrl.NoMarker | app.py:29-34 | a URL with neither marker gives `None` |
| VideoUrl.IdAfterOfShape | app.py:31-33 | `id + tail` starts with the identifier `id` when `id` has neither terminator and `tail` is empty or starts with the cut character |
| VideoUrl.FirstParamOfWatchUrl | app.py:31 | in `<pre>youtube.com/watch?v=...` with no `v=` in `pre`, the first `v=` is the marker's |
| VideoUrl.FirstShortMarkerOf | app.py:33 | in `<pre>youtu.be/...` with no `youtu.be/` in `pre`, the first `youtu.be/` is the one after `pre` |
| VideoUrl.WatchUrlShape | app.py:30-31 | `<pre>youtube.com/watch?v=<id>[&...]` gives exactly `id` when `pre` has no `v=` and `id` has no `&` and no `v=` |
| VideoUrl.ShortUrlShape | app.py:32-33 | `<pre>youtu.be/<id>[?...]` without a watch marker gives exactly `id` when `pre` has no `youtu.be/` and `id` has no `?` and no `youtu.be/` |
| VideoUrl.WatchExample | app.py:30-31 | `https://www.youtube.com/watch?v=abc123&t=5s` gives `abc123` |
| VideoUrl.ShortExample | app.py:32-33 | `https://youtu.be/xyz789?si=1` gives `xyz789` |
| VideoUrl.NoMarkerExample | app.py:29-34 | `https://vimeo.com/12345` gives `None` |
| Prompts.DifficultyPrompt | app.py:17-25 | the base prompt is always a prefix; the result equals the base exactly for inputs other than the three levels, and is strictly longer for them |
| Prompts.PromptClause | app.py:17-25 | what follows the base is the Simple, Medium or Hard clause for that level, and nothing otherwise |
| Prompts.PromptsDistinct | app.py:17-23 | the three levels give three different prompts |
| Prompts.HardPromptClauses | app.py:22-23 | the Hard prompt holds the advanced-language clause right after the base, and what it adds is not the simple-language clause |
| Transcript.Texts | app.py:40 | the list comprehension keeps every segment's text, in order |
| Transcript.JoinSpace | app.py:40 | `" ".join(texts)`: when no text contains a space, splitting the result on spaces gives the texts back |
| Transcript.TranscriptText | app.py:40 | the line-40 transcript: when no segment text contains a space, splitting it on spaces gives the segment texts back, in order |
| Transcript.JoinSpaceShort | app.py:40 | `[]` joins to `""` and `[s]` to `s` |
| Transcript.JoinSpaceSnoc | app.py:40 | a further text adds a space and that text at the end |
| Transcript.JoinSpaceLength | app.py:40 | the length is the texts' total plus n-1 |
| Transcript.JoinSpaceExample | app.py:40 | `["a", "b", "c"]` joins to `"a b c"` |
| Transcript.TranscriptEmptyIff | app.py:40 | the transcript is `""` exactly for no segments or one empty segment |
| Transcript.TranscriptIgnoresTiming | app.py:40 | the transcript depends on the segment texts only |
| LanguageTable.LanguageCode | app.py:102 | the lookup returns one of the table's codes |
| LanguageTable.NamesAreKeys | app.py:84-85 | the select box lists 11 distinct names, exactly the table's keys |
| LanguageTable.TableSize | app.py:84 | the table has 11 entries |
| LanguageTable.CodesDistinct | app.py:84 | different names map to different codes |
| LanguageTable.CodeExamples | app.py:84 | `French` maps to `fr` and `Chinese` to `zh-cn` |
| Script.Truthy | app.py:80 | Python's truth value of `video_id`: false exactly for `None` and for `""` |
| Script.RunScript | app.py:78-114 | the fetch runs only for a non-empty link with a non-empty identifier after the button press; generation only after a non-empty transcript, with the prompt followed by the transcript; translation only after a non-empty summary, to `languages[target]`; each call's arguments, the identifier on the selection screen, the error screens and the notes shown |
| Script.InvalidUrlExample | app.py:78-80 | `https://vimeo.com/12345` calls no service and shows the invalid-URL error |
| Script.NoMarkerRun | app.py:78-114 | any non-empty link with neither URL marker calls no service and shows the invalid-URL error |
| Script.FetchFailureHalts | app.py:91-94 | a transcript failure calls neither generation nor translation and shows the service's message |
| Script.FrenchTranslation | app.py:102 | with French selected the translator is asked for exactly `fr` |
| Script.WatchUrlRun | app.py:78-112 | the sample watch URL runs all three services in order with the stated arguments and shows the translated notes |

## Left out

- The Streamlit page: configuration, CSS, title, input box, select boxes,
  button, spinner, thumbnail, markdown, download button. These are
  presentation only. `Screen` records which outcome is shown, not how.
- Loading the environment and configuring the model client. This is
  process I/O.
- The transcript, generation and translation services. They are network
  calls. `Script.RunScript` takes them as arbitrary functions.
- The wording of the fetch error. The `FetchFailed` screen carries the
  service's message without the fixed prefix the source puts before it.
- Exceptions from the generation or the translation call. The source does
  not catch them, so the script stops. The model's service functions always
  answer.
- An empty separator for `split`, which raises `ValueError` in Python. The
  source only splits on fixed non-empty texts, so `PyStrings` requires a
  non-empty separator.
- Prompts.HardPromptClauses: proves only that the clause added to the base
  is not the simple-language clause, not that the simple-language clause
  appears nowhere in the whole Hard prompt. The solver cannot index deep
  into the 224-character base literal.
- Determinism of `get_difficulty_prompt`: it needs no lemma, because every
  Dafny function is deterministic.
