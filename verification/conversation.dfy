/**
 * Runs of the chat page: the handlers applied one at a time, with the
 * request that is awaiting its response kept beside the component state.
 * The lemmas here are the invariants that hold over every such run.
 */
module Conversation {
  import opened Options
  import opened Text
  import opened Messages
  import opened ChatPage

  /** One user action or network completion, in the order the page handles them. */
  datatype Event =
    | Type(text: string)
    | PickFile(file: Option<ImageFile>)
    | ClearImage
    | Submit(now: nat, previewUrl: string)
    | Respond(outcome: Outcome, now: nat)

  /** The component state and the request whose response is still awaited. */
  datatype Session = Session(page: State, inFlight: Option<Request>)

  /** A freshly mounted page with nothing in flight. */
  function Start(mountedAt: nat): Session {
    Session(Initial(mountedAt), None)
  }

  /**
   * One event. A submit the guard rejects changes nothing; a response arrives
   * only for a request in flight and settles it.
   */
  function Step(x: Session, e: Event): Session {
    match e
    case Type(text) => Session(EditInput(x.page, text), x.inFlight)
    case PickFile(file) => Session(SelectImage(x.page, file), x.inFlight)
    case ClearImage => Session(RemoveImage(x.page), x.inFlight)
    case Submit(now, previewUrl) =>
      var b := Begin(x.page, now, previewUrl);
      if b.request.Some? then Session(b.state, b.request) else x
    case Respond(o, now) =>
      if x.inFlight.Some? then Session(Settle(x.page, o, now), None) else x
  }

  /** The events of `es` applied in order. */
  function Run(x: Session, es: seq<Event>): Session
    decreases |es|
  {
    if es == [] then x else Step(Run(x, es[..|es| - 1]), es[|es| - 1])
  }

  /** No message carries a video: the page never fills in `videoUrl`. */
  predicate NoVideo(ms: seq<Message>) {
    forall i :: 0 <= i < |ms| ==> ms[i].videoUrl.None?
  }

  /**
   * The invariant of every reachable session: at most one placeholder; the
   * gate is up exactly when there is one, exactly when a request is in
   * flight, and then the placeholder is the last message.
   */
  predicate Inv(x: Session) {
    var ms := x.page.messages;
    && CountGenerating(ms) <= 1
    && (x.page.isLoading <==> CountGenerating(ms) == 1)
    && (x.page.isLoading <==> x.inFlight.Some?)
    && (x.page.isLoading ==> |ms| > 0 && ms[|ms| - 1].isGenerating)
    && NoVideo(ms)
  }

  /** The messages that stay in the transcript for good: all but placeholders. */
  function Transcript(x: Session): seq<Message> {
    RemoveGenerating(x.page.messages)
  }

  /** A freshly mounted page satisfies the invariant and has no placeholder to filter. */
  lemma StartInv(mountedAt: nat)
    ensures Inv(Start(mountedAt))
    ensures Transcript(Start(mountedAt)) == Start(mountedAt).page.messages
  {
    RemoveGeneratingNoop(Start(mountedAt).page.messages);
  }

  /** An accepted submit moves the page to `Begin`'s state and puts its request in flight. */
  lemma SubmitAccepted(x: Session, now: nat, previewUrl: string)
    requires !x.page.isLoading
    requires !AllTrimmable(x.page.input) || x.page.selectedImage.Some?
    ensures Step(x, Submit(now, previewUrl))
      == Session(Begin(x.page, now, previewUrl).state, Begin(x.page, now, previewUrl).request)
  {
  }

  /** The response to an in-flight request settles the page and empties the slot. */
  lemma RespondSettles(x: Session, o: Outcome, now: nat)
    requires x.inFlight.Some?
    ensures Step(x, Respond(o, now)) == Session(Settle(x.page, o, now), None)
  {
  }

  /** Every event preserves the invariant. */
  lemma StepInv(x: Session, e: Event)
    requires Inv(x)
    ensures Inv(Step(x, e))
  {
    match e
    case Submit(now, previewUrl) => SubmitInv(x, now, previewUrl);
    case Respond(o, now) => RespondInv(x, o, now);
    case _ =>
  }

  /** The submit handler preserves the invariant, whether or not the guard accepts. */
  lemma SubmitInv(x: Session, now: nat, previewUrl: string)
    requires Inv(x)
    ensures Inv(Step(x, Submit(now, previewUrl)))
  {
    var b := Begin(x.page, now, previewUrl);
    if b.request.Some? {
      SubmitAccepted(x, now, previewUrl);
      var ms, ms' := x.page.messages, b.state.messages;
      assert ms' == ms + [ms'[|ms|], ms'[|ms| + 1]] by {
        assert ms' == ms'[..|ms|] + ms'[|ms|..];
      }
    }
  }

  /** Settling the request in flight preserves the invariant. */
  lemma RespondInv(x: Session, o: Outcome, now: nat)
    requires Inv(x)
    ensures Inv(Step(x, Respond(o, now)))
  {
    if x.inFlight.Some? {
      RespondSettles(x, o, now);
      var ms' := Settle(x.page, o, now).messages;
      RemoveGeneratingMembers(x.page.messages);
      assert ms' == ms'[..|ms'| - 1] + [ms'[|ms'| - 1]];
    }
  }

  /** The invariant holds after any run from a state that satisfies it. */
  lemma {:induction false} RunInv(x: Session, es: seq<Event>)
    requires Inv(x)
    ensures Inv(Run(x, es))
    decreases |es|
  {
    if es != [] {
      RunInv(x, es[..|es| - 1]);
      StepInv(Run(x, es[..|es| - 1]), es[|es| - 1]);
    }
  }

  /**
   * Every run from a freshly mounted page has at most one placeholder, and
   * has one exactly while the gate is up and a request is in flight.
   */
  lemma {:induction false} ReachableInv(mountedAt: nat, es: seq<Event>)
    ensures var x := Run(Start(mountedAt), es);
      && CountGenerating(x.page.messages) <= 1
      && (x.page.isLoading <==> CountGenerating(x.page.messages) == 1)
      && (x.page.isLoading <==> x.inFlight.Some?)
  {
    StartInv(mountedAt);
    RunInv(Start(mountedAt), es);
  }

  /** Each event only appends to the transcript: nothing kept is reordered or lost. */
  lemma StepExtendsTranscript(x: Session, e: Event)
    ensures Transcript(x) <= Transcript(Step(x, e))
  {
    match e
    case Submit(now, previewUrl) =>
      if Begin(x.page, now, previewUrl).request.Some? {
        SubmitAccepted(x, now, previewUrl);
        BeginKeepsTranscript(x.page, now, previewUrl);
      }
    case Respond(o, now) =>
      if x.inFlight.Some? {
        RespondSettles(x, o, now);
        SettleKeepsTranscript(x.page, o, now);
      }
    case _ =>
  }

  /** Over a whole run the transcript only grows at its end. */
  lemma {:induction false} RunExtendsTranscript(x: Session, es: seq<Event>)
    ensures Transcript(x) <= Transcript(Run(x, es))
    decreases |es|
  {
    if es != [] {
      RunExtendsTranscript(x, es[..|es| - 1]);
      StepExtendsTranscript(Run(x, es[..|es| - 1]), es[|es| - 1]);
    }
  }

  /** The welcome message stays the first kept message of every run. */
  lemma {:induction false} WelcomeStaysFirst(mountedAt: nat, es: seq<Event>)
    ensures var t := Transcript(Run(Start(mountedAt), es));
      |t| > 0 && t[0] == Start(mountedAt).page.messages[0]
  {
    StartInv(mountedAt);
    RunExtendsTranscript(Start(mountedAt), es);
  }

  /** While a request is in flight a further submit is ignored. */
  lemma SubmitWhileLoadingIgnored(x: Session, now: nat, previewUrl: string)
    requires x.page.isLoading
    ensures Step(x, Submit(now, previewUrl)) == x
  {
  }

  /** A submit with only whitespace typed and no image staged is ignored. */
  lemma BlankSubmitIgnored(x: Session, now: nat, previewUrl: string)
    requires AllTrimmable(x.page.input) && x.page.selectedImage.None?
    ensures Step(x, Submit(now, previewUrl)) == x
  {
  }

  /**
   * The response to an in-flight request replaces its placeholder: the
   * transcript keeps its length, no placeholder remains, the gate is lowered.
   */
  lemma RespondReplacesPlaceholder(x: Session, o: Outcome, now: nat)
    requires Inv(x) && x.inFlight.Some?
    ensures var y := Step(x, Respond(o, now));
      && |y.page.messages| == |x.page.messages|
      && NoneGenerating(y.page.messages)
      && !y.page.isLoading && y.inFlight.None?
  {
  }

  /**
   * An accepted submit from an idle session followed by its response: the
   * request carries the draft and the staged image, and the messages grow by
   * exactly the user's message and the reply, with no placeholder left.
   */
  lemma SubmitThenRespond(x: Session, now: nat, previewUrl: string, o: Outcome, later: nat)
    requires Inv(x) && !x.page.isLoading
    requires !AllTrimmable(x.page.input) || x.page.selectedImage.Some?
    ensures Step(x, Submit(now, previewUrl)).inFlight
      == Some(Request(x.page.input, x.page.selectedImage))
    ensures var y := Step(Step(x, Submit(now, previewUrl)), Respond(o, later));
      && |y.page.messages| == |x.page.messages| + 2
      && y.page.messages[..|x.page.messages|] == x.page.messages
      && y.page.messages[|x.page.messages|].role == User
      && y.page.messages[|x.page.messages|].content == x.page.input
      && y.page.messages[|x.page.messages| + 1].role == Assistant
      && y.page.messages[|x.page.messages| + 1].content == ReplyContent(o)
      && CountGenerating(y.page.messages) == 0
      && !y.page.isLoading && y.page.selectedImage.None? && y.inFlight.None?
  {
    var b := Begin(x.page, now, previewUrl);
    assert b.request.Some?;
    SubmitAccepted(x, now, previewUrl);
    RespondSettles(Step(x, Submit(now, previewUrl)), o, later);
    BeginThenSettle(x.page, now, previewUrl, o, later);
  }

  /**
   * Message ids are clock readings plus small offsets, so they need not be
   * unique: a reply settled at time `later` gets the id `later + 2`, and a
   * submit made two milliseconds afterwards gives its user message that id too.
   */
  lemma ReplyIdCanRepeat(x: Session, now: nat, previewUrl: string, o: Outcome, later: nat, prompt: string)
    requires Inv(x) && !x.page.isLoading
    requires !AllTrimmable(x.page.input) || x.page.selectedImage.Some?
    requires !AllTrimmable(prompt)
    ensures var y := Step(Step(Step(Step(x, Submit(now, previewUrl)), Respond(o, later)),
                               Type(prompt)), Submit(later + 2, previewUrl));
      var n := |x.page.messages|;
      && |y.page.messages| == n + 4
      && y.page.messages[n + 1].role == Assistant
      && y.page.messages[n + 2].role == User
      && y.page.messages[n + 1].id == y.page.messages[n + 2].id
  {
    var n := |x.page.messages|;
    var b1 := Begin(x.page, now, previewUrl);
    assert b1.request.Some?;
    SubmitAccepted(x, now, previewUrl);
    var y1 := Step(x, Submit(now, previewUrl));
    var s2 := Settle(b1.state, o, later);
    RespondSettles(y1, o, later);
    assert |s2.messages| == n + 2;
    var y3 := Step(Session(s2, None), Type(prompt));
    assert y3.page.input == prompt && !y3.page.isLoading;
    var b2 := Begin(y3.page, later + 2, previewUrl);
    assert b2.request.Some?;
    SubmitAccepted(y3, later + 2, previewUrl);
    assert b2.state.messages[..n + 2] == s2.messages;
    assert b2.state.messages[n + 1] == s2.messages[n + 1];
  }

  /** Running a run's events one after another. */
  lemma RunThree(x: Session, a: Event, b: Event, c: Event)
    ensures Run(x, [a, b]) == Step(Step(x, a), b)
    ensures Run(x, [a, b, c]) == Step(Step(Step(x, a), b), c)
  {
    assert [a][..0] == [];
    assert Run(x, [a]) == Step(x, a);
    assert [a, b][..1] == [a];
    assert Run(x, [a, b]) == Step(Step(x, a), b);
    assert [a, b, c][..2] == [a, b];
  }

  /**
   * Typing a prompt that is not blank into a fresh page, submitting it without
   * an image and receiving a successful reply: the request carries the prompt
   * and no image, and the page shows the welcome message, the prompt and the
   * reply, with no placeholder left.
   */
  lemma PromptAndReply(mountedAt: nat, prompt: string, reply: string, now: nat, later: nat)
    requires !AllTrimmable(prompt)
    ensures Run(Start(mountedAt), [Type(prompt), Submit(now, "blob:1")]).inFlight
      == Some(Request(prompt, None))
    ensures var y := Run(Start(mountedAt), [Type(prompt), Submit(now, "blob:1"),
                                            Respond(Json(true, reply, None), later)]);
      && |y.page.messages| == 3
      && y.page.messages[0].content == WelcomeText
      && y.page.messages[1].content == prompt
      && y.page.messages[2].content == reply
      && NoneGenerating(y.page.messages)
  {
    var o := Json(true, reply, None);
    var x0 := Start(mountedAt);
    var x1 := Step(x0, Type(prompt));
    StartInv(mountedAt);
    StepInv(x0, Type(prompt));
    SubmitThenRespond(x1, now, "blob:1", o, later);
    RunThree(x0, Type(prompt), Submit(now, "blob:1"), Respond(o, later));
  }

  /** The worked example: a cat on a skateboard. */
  lemma SkateboardScenario(mountedAt: nat, now: nat, later: nat)
    ensures Run(Start(mountedAt), [Type("A cat on a skateboard"), Submit(now, "blob:1")]).inFlight
      == Some(Request("A cat on a skateboard", None))
    ensures var y := Run(Start(mountedAt), [Type("A cat on a skateboard"), Submit(now, "blob:1"),
                                            Respond(Json(true, "Here is your video", None), later)]);
      && |y.page.messages| == 3
      && y.page.messages[1].content == "A cat on a skateboard"
      && y.page.messages[2].content == "Here is your video"
      && NoneGenerating(y.page.messages)
  {
    var prompt := "A cat on a skateboard";
    assert !IsTrimmable(prompt[0]);
    PromptAndReply(mountedAt, prompt, "Here is your video", now, later);
  }
}
