# Chat page conversation state machine, in Dafny

This project models the conversation controller of the Veo-v3 video-generation
demo. That controller is the `ChatPage` component in `app/chat/page.tsx`. The
component owns four pieces of state: the message list, the draft text, the
`isLoading` submit gate and an optional staged image. Its handlers change that
state.

The submit handler is asynchronous. The model splits it at its `await` into two
pure transitions:

- `Begin` is the synchronous part. It checks the guard, appends the user's
  message, clears the draft, raises the gate, appends the "generating"
  placeholder and builds the outgoing request.
- `Settle` applies the result of the request. It filters out every
  placeholder, appends exactly one assistant message (the reply or an
  `Error: …` text), lowers the gate and drops the staged image.

The network result is an input value, `Outcome`, with one case per branch of
the handler: `HttpNotOk(status)`, `Json(success, response, error?)` and
`Transport(message?)`.

The model is split into five modules:

- `Options`: the optional-value type.
- `Text`: JavaScript's `String.prototype.trim`, using the ECMAScript WhiteSpace
  and LineTerminator code points, and the decimal rendering `${n}` of an HTTP
  status.
- `Messages`: the `Message` record and the placeholder filter.
- `ChatPage`: the component state and its transitions.
- `Conversation`: runs of events. A `Session` pairs the page state with the
  request still awaiting its response. The invariants are proved over every
  run.

Message ids in the source are `Date.now()` readings plus the offsets 0, 1 and
2. They are not unique. `Conversation.ReplyIdCanRepeat` shows a reply and a
later user message with the same id. The model claims no uniqueness.

## Model

| member | source | states |
|---|---|---|
| `Text.Trim` | app/chat/page.tsx:54 | `input.trim()` removes a leading and a trailing run of whitespace or line-terminator characters and keeps the contiguous middle. The middle neither starts nor ends with such a character. It is empty exactly when every character of the input is one. |
| `Text.DecimalString` | app/chat/page.tsx:94 | `${response.status}` renders the status in decimal: at least one digit, only digits, and no leading zero except for "0". |
| `Text.DecimalRoundTrip` | app/chat/page.tsx:94 | Reading the decimal rendering back gives the original number. |
| `Text.DecimalStringInjective` | app/chat/page.tsx:57-70 | Distinct clock readings render as distinct id strings. So, given one clock reading per submit, the user message and the placeholder (`now` and `now + 1`) never share an id. |
| `Messages.CountGenerating` | app/chat/page.tsx:19 | Counts the messages flagged `isGenerating`. The count is zero exactly when no message is flagged. |
| `Messages.RemoveGenerating` | app/chat/page.tsx:107 | `prev.filter((msg) => !msg.isGenerating)` keeps exactly the messages that are not placeholders. The length drops by the number of placeholders, and no placeholder is left. |
| `Messages.RemoveGeneratingMembers` | app/chat/page.tsx:107 | A message survives the filter exactly when it was in the list and is not a placeholder. |
| `Messages.RemoveGeneratingAppend` | app/chat/page.tsx:118 | The filter distributes over concatenation, so the kept messages stay in their relative order. |
| `Messages.RemoveGeneratingNoop` | app/chat/page.tsx:107 | Filtering a list without placeholders returns it unchanged. |
| `Messages.RemoveTrailingPlaceholder` | app/chat/page.tsx:64-107 | A user message followed by a placeholder is appended to a placeholder-free list and then filtered. What remains is the list plus the user message. |
| `ChatPage.Initial` | app/chat/page.tsx:24-35 | The page mounts with one assistant welcome message, no placeholder, an empty draft, the gate down and no staged image. |
| `ChatPage.EditInput` | app/chat/page.tsx:259 | The text field's change handler replaces the draft text and leaves the messages, the gate and the staged image alone. |
| `ChatPage.SelectImage` | app/chat/page.tsx:38-43 | Choosing a file stages it and replaces any earlier one. When no file is chosen the state is unchanged. The messages, draft and gate never change. |
| `ChatPage.RemoveImage` | app/chat/page.tsx:45-50 | The staged image is cleared. Nothing else changes. |
| `ChatPage.Begin` | app/chat/page.tsx:52-84 | Begin rejects the submit exactly when the draft is all whitespace with no image staged, or when the gate is up. A rejected submit changes nothing and sends nothing. An accepted submit sends the untrimmed draft and exactly the staged image. It keeps the earlier messages as they were and appends two messages. The first is a user message with the draft as content and an `imageUrl` exactly when an image was staged. The second is an assistant placeholder with `isGenerating` set, the fixed text and no image. The ids are `now` and `now + 1` for one clock reading `now`, and they differ. The draft is cleared, the gate is raised, the image stays staged, and the placeholder count goes up by one. |
| `ChatPage.ReplyContent` | app/chat/page.tsx:93-118 | A 2xx response with `success` gives `data.response`. Every failure gives `"Error: "` followed by a description. `success = false` uses the non-empty server `error`, falling back to "Failed to generate video". A non-2xx response uses `HTTP error! status: ` and the status. A thrown `Error` uses its message. Any other thrown value uses the fallback. |
| `ChatPage.HttpStatusRecoverable` | app/chat/page.tsx:94 | The HTTP status can be read back from the error message shown for a non-2xx response. |
| `ChatPage.Settle` | app/chat/page.tsx:99-122 | Whatever the outcome, every placeholder is removed. The other messages are kept in order. Exactly one non-generating assistant message with the outcome's text, no image and no video is appended. The gate is lowered and the staged image dropped. The draft text is left as it is. |
| `ChatPage.BeginPlaceholderIsOnlyOne` | app/chat/page.tsx:64-107 | After an accepted submit on a transcript without placeholders, filtering removes exactly the placeholder just appended. |
| `ChatPage.BeginThenSettle` | app/chat/page.tsx:52-122 | A full submit on a placeholder-free transcript grows the list by exactly two messages. Earlier messages are untouched. The user's draft comes first, then the reply text. No placeholder is left, the gate is down and no image is staged. |
| `ChatPage.BeginKeepsTranscript` | app/chat/page.tsx:64-77 | An accepted submit adds exactly the user message to the messages that are not placeholders. |
| `ChatPage.SettleKeepsTranscript` | app/chat/page.tsx:107-118 | Settling adds exactly the reply to the messages that are not placeholders, after those that were already there. |
| `ChatPage.RemoveUndoesSelect` | app/chat/page.tsx:38-50 | Removing the staged image undoes staging one, and removing twice is the same as removing once. |
| `ChatPage.RemovedImageNotSent` | app/chat/page.tsx:80-84 | Stage an image, remove it, then submit. The submit is accepted exactly when the draft is not blank and the gate is down, and the request carries no `image` field. |
| `Conversation.StartInv` | app/chat/page.tsx:24-35 | The mounted page satisfies the invariant: no placeholder, gate down, nothing in flight, no video. |
| `Conversation.StepInv` | app/chat/page.tsx:38-122 | Every handler preserves the invariant. There is at most one placeholder. The gate is up exactly when there is one placeholder, and exactly when a request is in flight. While the gate is up the placeholder is the last message. No message carries a video. |
| `Conversation.SubmitInv` | app/chat/page.tsx:52-84 | The submit handler preserves the invariant. |
| `Conversation.RespondInv` | app/chat/page.tsx:93-122 | Settling the request in flight preserves the invariant. |
| `Conversation.RunInv` | app/chat/page.tsx:38-122 | The invariant holds after any sequence of events from a state that satisfies it. |
| `Conversation.ReachableInv` | app/chat/page.tsx:24-122 | On every run from a freshly mounted page there is never more than one placeholder. There is one exactly while `isLoading` holds, and exactly while a request is in flight. |
| `Conversation.StepExtendsTranscript` | app/chat/page.tsx:64-118 | No event reorders or drops a message that is not a placeholder. The kept messages before an event are a prefix of those after it. |
| `Conversation.RunExtendsTranscript` | app/chat/page.tsx:64-118 | Over a whole run, the messages that are not placeholders only grow at the end. |
| `Conversation.WelcomeStaysFirst` | app/chat/page.tsx:24-32 | The welcome message is never removed and stays the first kept message of every run. |
| `Conversation.SubmitWhileLoadingIgnored` | app/chat/page.tsx:54 | A submit while `isLoading` holds is a no-op, whatever the draft. |
| `Conversation.BlankSubmitIgnored` | app/chat/page.tsx:54 | A submit with a whitespace-only draft and no staged image is a no-op. |
| `Conversation.RespondReplacesPlaceholder` | app/chat/page.tsx:107-122 | The response to the request in flight replaces its placeholder. The list length is unchanged, no placeholder remains, the gate is down and nothing is in flight. |
| `Conversation.SubmitThenRespond` | app/chat/page.tsx:52-122 | Start from an idle session and make an accepted submit. The request carries the draft and the staged image. After the response, the list has grown by exactly the user message and the assistant reply, in that order, with no placeholder left. The gate is down, the image is dropped and nothing is in flight. |
| `Conversation.ReplyIdCanRepeat` | app/chat/page.tsx:101-113 | The reply settled at time `t` has id `t + 2`. A submit two milliseconds later gives its user message the same id, so ids are not unique. |
| `Conversation.PromptAndReply` | app/chat/page.tsx:52-122 | On a fresh page, a non-blank prompt is typed and submitted without an image, and a success response arrives. The request carries the prompt and no image. The page shows the welcome message, the prompt and the reply, with no placeholder. |
| `Conversation.SkateboardScenario` | app/chat/page.tsx:52-122 | The prompt "A cat on a skateboard" is sent with no image field. After the response "Here is your video", the transcript shows that prompt and then that reply, with no placeholder. |

## Left out

- `fetch`, `FormData`, the CORS and credentials options, and JSON parsing (app/chat/page.tsx:80-97) are external I/O. The model takes only their result, as an `Outcome`, and the request as a `Request(prompt, image)` value.
- `URL.createObjectURL` is a browser resource. The preview URL is a parameter of `Begin`, and object-URL lifetime is not modelled.
- `Date.now()` and `new Date()` read the wall clock. Each phase takes one clock reading (`now`) as a parameter and uses it for both the id and the timestamp. The source reads the clock separately for each.
- React rendering, JSX and styling (app/chat/page.tsx:125-324) are UI. So are the `disabled` attributes on the input and buttons and the `fileInputRef` reset (app/chat/page.tsx:47-49). The model allows every handler at any time and relies only on the submit handler's own guard.
- React state batching and stale-closure races, such as a double submit before re-render, are not modelled. Events run one at a time and atomically.
- `ChatPage.ReplyContent`: `data.success` and `data.error` are modelled as a boolean and an optional string. A non-boolean `success` is not covered, and neither is a non-string `error`. A successful body without `response` would show `undefined`; the model always has a string there.
- The `|| "Failed to generate video"` fallback on the server error applies to an absent or empty string only, which is JavaScript's falsy case for strings.
- `Transport(Some(""))`, a thrown `Error` with an empty message, gives `"Error: "` with no fallback. That is what the `instanceof Error` branch does.
- The landing page (app/page.tsx) is a static page plus one `router.push('/chat')` call, with no state to model.
- JavaScript strings are UTF-16 code units. The model treats them as sequences of Unicode scalar values, which does not change what `trim` removes.
