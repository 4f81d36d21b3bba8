# BizTone Converter: the `/api/convert` handler in mock mode

This project models the request handler of the BizTone Converter backend
(`backend/app.py`). The handler takes a JSON body `{"text": ..., "target": ...}`
and answers with one of two things. The first is a placeholder "conversion":
an audience-specific label, the stripped text, and a note that real AI
conversion is still to come. The second is a JSON error with status 400 or 500.
The call to the language-model API is only a TODO in this version of the code,
so the handler is a pure function from the parsed body to the response.

Modules:

- `Json` (`json.dfy`) is the parsed request body. It covers `null`, booleans,
  integers, floats, strings, lists and dicts, plus Python truthiness, Python type
  names and hashability.
- `PyStr` (`pystr.dfy`) is Python's `str.strip()` over the code points that
  `str.isspace()` accepts. `IsStripOf` is a reference definition of it, with no
  recursion.
- `Mock` (`mock.dfy`) holds the prefix table (`Audience`, `Label`), the shape of
  the converted string (`Render`), and `Parse`, its inverse.
- `App` (`app.dfy`) is the handler itself (`ConvertText`): refusal reasons with
  their status codes and messages, and the health endpoint.
- `Properties` (`properties.dfy`) holds the all-inputs lemmas about
  `ConvertText`.

`ConvertText` applies the checks in the same order as the code:

1. A falsy body (`null`, `false`, `0`, `""`, `[]`, `{}`) gets 400 "No data provided".
2. A truthy body that is not a dict gets 500, because Python has no `.get` on it.
3. A `text` that is present but is not a string gets 500, because it has no `.strip()`.
4. A stripped text that is empty gets 400 "Text is required".
5. A stripped text longer than 500 code points gets 400 "Text exceeds 500 characters".
6. A list or dict `target` gets 500, because it cannot be a key in the prefix table.
   This happens only after the text checks pass.
7. Otherwise the handler answers `Ok(original, converted, target, "success_mock")`.

A missing `target` becomes `"boss"`. Any other hashable target is echoed
unchanged and gets the fallback label `"[변환] "`. The converted string is the
label, then one more space (the label already ends in one), then the text, then
the note `" (실제 AI 변환은 추후 구현됩니다.)"`. So the text is always preceded
by two spaces.

`ConvertText` is a function, so equal bodies always give equal responses.
`ResubmitIdempotent` proves a stronger fact: sending a success's `original` and
`target` back to the handler reproduces the same response.

The handler's docstring (backend/app.py:30) lists `target` as one of "boss",
"colleague" or "customer". The code is more permissive, and the model follows
the code:

- A missing `target` defaults to "boss" (line 40).
- Any other hashable target is accepted with the fallback label (line 57) and
  echoed back (line 62).
- Only a list or dict target fails, with a 500 from the dict lookup.

The success record uses the field name `converted` (line 61). The page script
reads `converted_text` (frontend/js/script.js:48), a field this handler never
sends. That script is not part of this model.

## Model

| member | source | states |
|---|---|---|
| `PyStr.IsSpaceExamples` | backend/app.py:39 | `IsSpace` is the set of characters `strip()` removes. Among ASCII characters that is exactly the space, tab to carriage return, and U+001C to U+001F. It includes U+00A0, U+2028 and U+3000, and excludes U+200B, U+FEFF and U+180E. |
| `PyStr.ContentStart` | backend/app.py:39 | The left scan of `strip()` stops at the first non-whitespace character, or at the end, and skips only whitespace. |
| `PyStr.ContentEnd` | backend/app.py:39 | The right scan of `strip()` stops just past the last non-whitespace character. It never passes the left scan's stop and skips only whitespace. |
| `PyStr.Strip` | backend/app.py:39 | `text.strip()` meets the reference definition. The result is a slice `s[a..b]` with only whitespace outside it and no whitespace at either end. |
| `PyStr.StripUnique` | backend/app.py:39 | The reference definition of stripping has at most one solution for each input. |
| `PyStr.StripEmptyIffAllSpace` | backend/app.py:39-43 | The stripped text is empty exactly when the input is empty or all whitespace, which is when `not text` holds. |
| `PyStr.StripTight` | backend/app.py:39 | A string with no whitespace at either end strips to itself. |
| `PyStr.StripIdempotent` | backend/app.py:39 | Stripping twice is the same as stripping once. |
| `PyStr.StripIgnoresPadding` | backend/app.py:39 | Adding whitespace on either side does not change the stripped text. |
| `Json.FalsyValues` | backend/app.py:36 | `Truthy` is Python truthiness for `if not data`: the falsy bodies are exactly `null`, `false`, `0`, `0.0`, `""`, `[]` and `{}`. `Properties.NoDataIff` ties it to the handler. |
| `Mock.AudienceOf` | backend/app.py:52-57 | The prefix-table lookup selects the boss, colleague or customer row exactly when the target is that string. Every other target, of any type, takes the fallback row. |
| `Mock.Label` | backend/app.py:52-57 | Each table entry is a bracketed tag followed by one space. `TableHeads`, `FallbackHead` and `Properties.TableTarget` spell out each entry. |
| `Mock.Head` | backend/app.py:57 | The label followed by the format string's literal space, so the text is preceded by `"]  "`. |
| `Mock.Render` | backend/app.py:57 | The converted string is the head, the text, then the note. `Parse` can find exactly these parts in it again. `ParseRender`, `RenderParse` and `BossHelloRendering` pin it completely. |
| `Mock.Parse` | backend/app.py:57 | Any string that parses starts with the head of the audience found and ends with the pending-conversion note. |
| `Mock.HeadsDistinguish` | backend/app.py:52-56 | No two table labels can both start the same string, so the label in a converted string identifies its row. |
| `Mock.ParseRender` | backend/app.py:57 | Parsing a converted string gives back exactly the audience and text it was built from. |
| `Mock.RenderParse` | backend/app.py:57 | Every string that parses is the rendering of the audience and text it parses to. |
| `Mock.RenderInjective` | backend/app.py:57 | Different audiences or texts never produce the same converted string. |
| `Mock.TableHeads` | backend/app.py:52-57 | The boss, colleague and customer rows put their labels before the text, each followed by two spaces. |
| `Mock.FallbackHead` | backend/app.py:57 | The fallback row puts `"[변환]"` and two spaces before the text. |
| `Mock.BossHelloRendering` | backend/app.py:52-57 | For "hello" and the boss row, the converted string is exactly `"[상사용 변환]  hello (실제 AI 변환은 추후 구현됩니다.)"`. |
| `App.TextOf` | backend/app.py:39 | `data.get('text', '')`: the supplied `text` value, or the empty string when the key is absent. |
| `App.TargetOf` | backend/app.py:40 | `data.get('target', 'boss')`: the supplied `target` value, or "boss" when the key is absent. `Properties.MissingTargetIsBoss` shows the default reaching the response. |
| `App.StatusFollowsMessage` | backend/app.py:36-69 | `Rejection.Code` and `Rejection.Message`: status 400 goes with exactly the three validation texts of lines 37, 43 and 46. Status 500 goes with exactly a caught exception (lines 68-69). |
| `App.ValidationMessagesDistinct` | backend/app.py:36-46 | Each of the three 400 refusals has an error text that no other refusal, 400 or 500, shares. |
| `App.ConvertText` | backend/app.py:32-69 | On success, the original text has 1 to 500 code points and no whitespace at either end, the status is "success_mock", and the target is hashable. A 500 only happens for a truthy body. |
| `App.HealthCheck` | backend/app.py:18-24 | The health endpoint always answers 200 with exactly the fields status, service and version, and status is "healthy". |
| `Properties.NoDataIff` | backend/app.py:36-37 | The handler answers "No data provided" exactly when the body is falsy. No other check runs before this one. |
| `Properties.TextRequiredIff` | backend/app.py:39-43 | The handler answers "Text is required" exactly when the body is a non-empty dict whose `text` is absent or is a string that is empty or all whitespace. |
| `Properties.BlankTextIgnoresTarget` | backend/app.py:39-43 | A blank text is refused with "Text is required" whatever the target is. This includes a list or dict target. |
| `Properties.TooLongIff` | backend/app.py:39-46 | The handler answers "Text exceeds 500 characters" exactly when the body is a non-empty dict whose `text` is a string with more than 500 code points after stripping. The target does not matter. |
| `Properties.LengthBoundary` | backend/app.py:45-46 | A stripped length of 500 is accepted and a stripped length of 501 is refused as too long. |
| `Properties.PaddingIgnored` | backend/app.py:39-46 | Adding whitespace around the text changes no response, so surrounding whitespace never counts toward the bound. |
| `Properties.SuccessEchoes` | backend/app.py:39-64 | A success means the body had a string `text`. `original` is that text stripped and `target` is the supplied target, or "boss" if there was none. `converted` is the target's label, a space, the text, then the note. |
| `Properties.MissingTargetIsBoss` | backend/app.py:40-57 | Without a `target`, a success reports "boss" and uses the superior-audience label. |
| `Properties.TableTarget` | backend/app.py:52-62 | Each of "boss", "colleague" and "customer" is accepted and echoed. It selects its own label: "[상사용 변환] ", "[동료용 변환] " and "[고객용 변환] " respectively, never the fallback. |
| `Properties.ConvertedParses` | backend/app.py:57-61 | The converted string of every success parses back to its audience and its original text. |
| `Properties.UnknownTargetAccepted` | backend/app.py:57-63 | A hashable target outside the table is not an error. It is echoed unchanged and the fallback label is used. |
| `Properties.AcceptedIff` | backend/app.py:36-66 | The handler succeeds exactly for the bodies in a description that does not use `Strip`. That description is a dict whose `text` is a string. The span from its first to its last non-whitespace character has 1 to 500 code points. The target is hashable. |
| `Properties.InternalErrorIff` | backend/app.py:33-69 | Three cases give 500, each with its exception text: a truthy non-dict body, a non-string `text`, and a list or dict target whose text passes the checks. Nothing else gives 500. |
| `Properties.ResubmitIdempotent` | backend/app.py:51-66 | Sending a success's `original` and `target` back gives the same response. |
| `Properties.HelloForBoss` | backend/app.py:52-66 | `{"text": "hello", "target": "boss"}` gets exactly the documented mock record. |

## Left out

- Flask routing, `jsonify`, CORS setup, `load_dotenv` and `app.run` (backend/app.py:1-15, 71-73) are framework and process plumbing. The model works on the parsed body and returns the response record with its status code.
- `request.get_json()` is left out. The model starts from the parsed value. A malformed body or a non-JSON content type raises inside the handler's `try` (backend/app.py:33), and lines 68-69 answer that with a 500 carrying the exception text. The model does not cover those cases, because the exception text comes from the framework.
- JSON `NaN` and `Infinity` are left out, along with strings holding lone surrogates: `Json.Value` cannot represent them.
- The API key read at backend/app.py:15 is never used, and the language-model call is only a TODO (lines 48-49), so neither is modelled.
- `App.Rejection.Message`: for caught exceptions, the `str(e)` text follows CPython 3.12 wording. Other Python versions may word these messages differently.
- The browser script (frontend/js/script.js) is left out. It is DOM, `fetch` and clipboard code, and its trim-and-nonempty check repeats the backend check.
