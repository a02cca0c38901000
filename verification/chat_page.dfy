/**
 * The conversation state machine of the chat page: the four pieces of
 * component state and the transitions the page's handlers perform on them.
 * The asynchronous submit handler is split at its `await`: `Begin` is the
 * synchronous part up to issuing the request, `Settle` applies the request's
 * outcome. The clock and the browser's object-URL factory are parameters.
 */
module ChatPage {
  import opened Options
  import opened Text
  import opened Messages

  /** The component state: transcript, draft text, submit gate, staged image. */
  datatype State = State(
    messages: seq<Message>,
    input: string,
    isLoading: bool,
    selectedImage: Option<ImageFile>)

  /** The multipart form posted to the generation service. */
  datatype Request = Request(prompt: string, image: Option<ImageFile>)

  /** An HTTP status for which `fetch` sets `ok` to false: anything outside 200..299. */
  type NotOkStatus = s: nat | !(200 <= s < 300)

  /**
   * How the request ended, one case per branch of the handler:
   * a response whose `ok` flag is false (status outside 200..299);
   * a 2xx response whose JSON body carries `success`, `response` and an
   * optional `error`; or a thrown error, with its message when it is an
   * `Error` instance (network failure, unparsable body).
   */
  datatype Outcome =
    | HttpNotOk(status: NotOkStatus)
    | Json(success: bool, response: string, error: Option<string>)
    | Transport(message: Option<string>)

  /** The state after the synchronous part of a submit, and the request it issued. */
  datatype Begun = Begun(state: State, request: Option<Request>)

  const ErrorPrefix: string := "Error: "
  const FailureFallback: string := "Failed to generate video"
  const HttpErrorText: string := "HTTP error! status: "

  /** The state the page mounts with: the welcome message and an empty draft. */
  function Initial(mountedAt: nat): (s: State)
    ensures |s.messages| == 1 && NoneGenerating(s.messages)
    ensures s.messages[0].role == Assistant && s.messages[0].content == WelcomeText
    ensures s.input == "" && !s.isLoading && s.selectedImage.None?
  {
    State([Message("1", WelcomeText, Assistant, mountedAt, None, false, None)], "", false, None)
  }

  /** The text field's change handler stores the typed text and nothing else. */
  function EditInput(s: State, text: string): (r: State)
    ensures r.input == text
    ensures r.messages == s.messages && r.isLoading == s.isLoading
    ensures r.selectedImage == s.selectedImage
  {
    s.(input := text)
  }

  /**
   * The file input's change handler: `file` is the first chosen file, if any.
   * A chosen file replaces the staged one; no file leaves the state alone.
   */
  function SelectImage(s: State, file: Option<ImageFile>): (r: State)
    ensures file.Some? ==> r.selectedImage == file
    ensures file.None? ==> r == s
    ensures r.messages == s.messages && r.input == s.input && r.isLoading == s.isLoading
  {
    if file.Some? then s.(selectedImage := file) else s
  }

  /** The remove button drops the staged image and touches nothing else. */
  function RemoveImage(s: State): (r: State)
    ensures r.selectedImage.None?
    ensures r.messages == s.messages && r.input == s.input && r.isLoading == s.isLoading
  {
    s.(selectedImage := None)
  }

  /** The submit guard: something to send, and no request already in flight. */
  predicate Accepts(s: State) {
    !((IsBlank(s.input) && s.selectedImage.None?) || s.isLoading)
  }

  /**
   * The synchronous part of the submit handler. A rejected submit changes
   * nothing and sends nothing. An accepted one appends the user's message and
   * the generating placeholder, clears the draft text, raises the gate, and
   * issues a request carrying the draft exactly as typed and the staged image.
   */
  function Begin(s: State, now: nat, previewUrl: string): (r: Begun)
    ensures r.request.None? <==> (AllTrimmable(s.input) && s.selectedImage.None?) || s.isLoading
    ensures r.request.None? ==> r.state == s
    ensures r.request.Some? ==>
      && r.request.value.prompt == s.input
      && r.request.value.image == s.selectedImage
      && |r.state.messages| == |s.messages| + 2
      && r.state.messages[..|s.messages|] == s.messages
      && r.state.input == ""
      && r.state.isLoading
      && r.state.selectedImage == s.selectedImage
      && CountGenerating(r.state.messages) == CountGenerating(s.messages) + 1
    ensures r.request.Some? ==>
      var user := r.state.messages[|s.messages|];
      && user.role == User
      && user.content == s.input
      && !user.isGenerating
      && (user.imageUrl.Some? <==> s.selectedImage.Some?)
      && user.videoUrl.None?
      && user.id == DecimalString(now)
    ensures r.request.Some? ==>
      var placeholder := r.state.messages[|s.messages| + 1];
      && placeholder.role == Assistant
      && placeholder.isGenerating
      && placeholder.content == PlaceholderText
      && placeholder.videoUrl.None?
      && placeholder.imageUrl.None?
      && placeholder.id == DecimalString(now + 1)
      && placeholder.id != r.state.messages[|s.messages|].id
  {
    if !Accepts(s) then
      Begun(s, None)
    else
      var user := Message(DecimalString(now), s.input, User, now, None, false,
                          if s.selectedImage.Some? then Some(previewUrl) else None);
      var placeholder := Message(DecimalString(now + 1), PlaceholderText, Assistant, now, None, true, None);
      var messages := s.messages + [user, placeholder];
      CountGeneratingAppend(s.messages, [user, placeholder]);
      assert CountGenerating([user, placeholder]) == 1 by {
        assert [user, placeholder][..1] == [user];
      }
      DecimalStringInjective(now, now + 1);
      Begun(State(messages, "", true, s.selectedImage), Some(Request(s.input, s.selectedImage)))
  }

  /** The request succeeded: a 2xx response whose body reports success. */
  predicate Succeeded(o: Outcome) {
    o.Json? && o.success
  }

  /**
   * The text of the message that replaces the placeholder. A success shows the
   * service's reply; every failure shows "Error: " followed by a description:
   * the server's non-empty `error`, the HTTP status, the thrown error's message,
   * or the generic fallback.
   */
  function ReplyContent(o: Outcome): (r: string)
    ensures Succeeded(o) ==> r == o.response
    ensures !Succeeded(o) ==> |r| >= |ErrorPrefix| && r[..|ErrorPrefix|] == ErrorPrefix
    ensures o.HttpNotOk? ==> r[|ErrorPrefix|..] == HttpErrorText + DecimalString(o.status)
    ensures o.Json? && !o.success && o.error.Some? && o.error.value != "" ==>
      r[|ErrorPrefix|..] == o.error.value
    ensures o.Json? && !o.success && (o.error.None? || o.error.value == "") ==>
      r[|ErrorPrefix|..] == FailureFallback
    ensures o.Transport? ==> r[|ErrorPrefix|..] == o.message.GetOr(FailureFallback)
  {
    match o
    case Json(true, response, _) => response
    case Json(false, _, error) =>
      // `data.error || "..."`: an absent or empty error falls back
      ErrorPrefix + (if error.Some? && error.value != "" then error.value else FailureFallback)
    case HttpNotOk(status) => ErrorPrefix + HttpErrorText + DecimalString(status)
    case Transport(message) => ErrorPrefix + message.GetOr(FailureFallback)
  }

  /** The status of a failed HTTP response can be read back from the error message. */
  lemma HttpStatusRecoverable(status: NotOkStatus)
    ensures var detail := ReplyContent(HttpNotOk(status))[|ErrorPrefix| + |HttpErrorText|..];
      AllDigits(detail) && DecimalValue(detail) == status
  {
    var r := ReplyContent(HttpNotOk(status));
    assert r[|ErrorPrefix| + |HttpErrorText|..] == DecimalString(status);
    DecimalRoundTrip(status);
  }

  /**
   * The asynchronous part of the submit handler, whatever the outcome: every
   * placeholder is filtered out, exactly one non-generating assistant message
   * with the outcome's text is appended, the gate is lowered and the staged
   * image dropped. The draft text is left as it is.
   */
  function Settle(s: State, o: Outcome, now: nat): (r: State)
    ensures |r.messages| == |s.messages| - CountGenerating(s.messages) + 1
    ensures NoneGenerating(r.messages)
    ensures r.messages[..|r.messages| - 1] == RemoveGenerating(s.messages)
    ensures var reply := r.messages[|r.messages| - 1];
      && reply.role == Assistant
      && reply.content == ReplyContent(o)
      && reply.imageUrl.None?
      && reply.videoUrl.None?
      && reply.id == DecimalString(now + 2)
    ensures r.input == s.input && !r.isLoading && r.selectedImage.None?
  {
    var reply := Message(DecimalString(now + 2), ReplyContent(o), Assistant, now, None, false, None);
    var messages := RemoveGenerating(s.messages) + [reply];
    assert messages[..|messages| - 1] == RemoveGenerating(s.messages);
    State(messages, s.input, false, None)
  }

  /**
   * A whole submit from an idle transcript without placeholders: the
   * transcript grows by exactly the user's message and the reply, earlier
   * messages untouched, and no placeholder is left.
   */
  lemma BeginThenSettle(s: State, now: nat, previewUrl: string, o: Outcome, later: nat)
    requires NoneGenerating(s.messages)
    requires Begin(s, now, previewUrl).request.Some?
    ensures var b := Begin(s, now, previewUrl);
      var t := Settle(b.state, o, later);
      && |t.messages| == |s.messages| + 2
      && t.messages[..|s.messages| + 1] == b.state.messages[..|s.messages| + 1]
      && t.messages[..|s.messages|] == s.messages
      && t.messages[|s.messages|].content == s.input
      && t.messages[|s.messages| + 1].content == ReplyContent(o)
      && NoneGenerating(t.messages)
      && !t.isLoading && t.selectedImage.None?
  {
    var b := Begin(s, now, previewUrl);
    var n := |s.messages|;
    BeginPlaceholderIsOnlyOne(s, now, previewUrl);
    var t := Settle(b.state, o, later);
    assert |t.messages| == n + 2;
    assert t.messages[..n + 1] == b.state.messages[..n + 1];
    assert t.messages[n] == b.state.messages[n];
  }

  /**
   * After an accepted submit on a transcript without placeholders, the
   * placeholder just appended is the only one: filtering removes exactly it.
   */
  lemma BeginPlaceholderIsOnlyOne(s: State, now: nat, previewUrl: string)
    requires NoneGenerating(s.messages)
    requires Begin(s, now, previewUrl).request.Some?
    ensures var ms := Begin(s, now, previewUrl).state.messages;
      RemoveGenerating(ms) == ms[..|s.messages| + 1]
  {
    var ms := Begin(s, now, previewUrl).state.messages;
    var n := |s.messages|;
    var user, placeholder := ms[n], ms[n + 1];
    assert ms == s.messages + [user, placeholder] by {
      assert ms == ms[..n] + ms[n..];
    }
    RemoveTrailingPlaceholder(s.messages, user, placeholder);
    assert ms[..n + 1] == s.messages + [user];
  }

  /**
   * An accepted submit adds exactly the user's message to the messages that
   * are not placeholders: the placeholder does not count, nothing else moves.
   */
  lemma BeginKeepsTranscript(s: State, now: nat, previewUrl: string)
    requires Begin(s, now, previewUrl).request.Some?
    ensures var ms := Begin(s, now, previewUrl).state.messages;
      RemoveGenerating(ms) == RemoveGenerating(s.messages) + [ms[|s.messages|]]
  {
    var ms := Begin(s, now, previewUrl).state.messages;
    var n := |s.messages|;
    assert ms == s.messages + [ms[n]] + [ms[n + 1]] by {
      assert ms == ms[..n] + ms[n..];
    }
    RemoveGeneratingAppend(s.messages + [ms[n]], [ms[n + 1]]);
    RemoveGeneratingAppend(s.messages, [ms[n]]);
  }

  /**
   * Settling adds exactly the reply to the messages that are not
   * placeholders: the ones kept before are kept, in the same order.
   */
  lemma SettleKeepsTranscript(s: State, o: Outcome, now: nat)
    ensures var ms := Settle(s, o, now).messages;
      RemoveGenerating(ms) == RemoveGenerating(s.messages) + [ms[|ms| - 1]]
  {
    var ms := Settle(s, o, now).messages;
    assert ms == ms[..|ms| - 1] + [ms[|ms| - 1]];
    RemoveGeneratingNoop(ms);
  }

  /** Removing the image undoes staging one: the state is as if none had been chosen. */
  lemma RemoveUndoesSelect(s: State, file: Option<ImageFile>)
    ensures RemoveImage(SelectImage(s, file)) == RemoveImage(s)
    ensures RemoveImage(RemoveImage(s)) == RemoveImage(s)
  {
  }

  /** A staged image that was removed again is not sent with the next submit. */
  lemma RemovedImageNotSent(s: State, file: ImageFile, now: nat, previewUrl: string)
    ensures var r := Begin(RemoveImage(SelectImage(s, Some(file))), now, previewUrl);
      && (r.request.Some? <==> !AllTrimmable(s.input) && !s.isLoading)
      && (r.request.Some? ==> r.request.value.image.None?)
  {
  }
}
