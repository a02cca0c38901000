/**
 * The chat transcript: the `Message` record of the chat page and the filter
 * that drops the transient "generating" placeholder once a request settles.
 */
module Messages {
  import opened Options

  datatype Role = User | Assistant

  /**
   * A file chosen in the browser's file picker. Only its identity matters to
   * the page: it is staged, shown as a preview and sent as the `image` field.
   */
  datatype ImageFile = ImageFile(name: string, bytes: seq<bv8>)

  /**
   * One entry of the transcript. `id` and `timestamp` come from the wall
   * clock; `isGenerating` stands for the optional flag, absent reading as
   * false; `videoUrl` is part of the record but never filled in by the page.
   */
  datatype Message = Message(
    id: string,
    content: string,
    role: Role,
    timestamp: nat,
    videoUrl: Option<string>,
    isGenerating: bool,
    imageUrl: Option<string>)

  const WelcomeText: string :=
    "Hello! I'm your AI video generation assistant powered by Veo-v3. Describe the video you'd like to create, and I'll generate it for you. Be as detailed as possible about the scene, style, and mood you want."

  /** The fixed text of the placeholder shown while a request is in flight. */
  const PlaceholderText: string :=
    "Generating your video with Veo-v3... This may take a few moments."

  /** The number of placeholders in `ms`. */
  function CountGenerating(ms: seq<Message>): (n: nat)
    ensures n <= |ms|
    ensures n == 0 <==> NoneGenerating(ms)
  {
    if ms == [] then 0
    else CountGenerating(ms[..|ms| - 1]) + (if ms[|ms| - 1].isGenerating then 1 else 0)
  }

  /** No message of `ms` is a placeholder. */
  predicate NoneGenerating(ms: seq<Message>) {
    forall i :: 0 <= i < |ms| ==> !ms[i].isGenerating
  }

  /**
   * `prev.filter((msg) => !msg.isGenerating)`: keeps exactly the messages
   * that are not placeholders.
   */
  function RemoveGenerating(ms: seq<Message>): (r: seq<Message>)
    ensures |r| == |ms| - CountGenerating(ms)
    ensures NoneGenerating(r)
  {
    if ms == [] then []
    else
      var last := ms[|ms| - 1];
      var init := ms[..|ms| - 1];
      assert ms == init + [last];
      if last.isGenerating then RemoveGenerating(init) else RemoveGenerating(init) + [last]
  }

  /** A message survives the filter exactly when it was there and is not a placeholder. */
  lemma {:induction false} RemoveGeneratingMembers(ms: seq<Message>)
    ensures forall m :: m in RemoveGenerating(ms) <==> m in ms && !m.isGenerating
    decreases |ms|
  {
    if ms != [] {
      var init := ms[..|ms| - 1];
      RemoveGeneratingMembers(init);
      assert ms == init + [ms[|ms| - 1]];
    }
  }

  /** Filtering a concatenation filters each part: the kept messages stay in order. */
  lemma {:induction false} RemoveGeneratingAppend(a: seq<Message>, b: seq<Message>)
    ensures RemoveGenerating(a + b) == RemoveGenerating(a) + RemoveGenerating(b)
    decreases |b|
  {
    if b != [] {
      var init := b[..|b| - 1];
      assert (a + b)[..|a + b| - 1] == a + init;
      assert (a + b)[|a + b| - 1] == b[|b| - 1];
      RemoveGeneratingAppend(a, init);
    } else {
      assert a + b == a;
    }
  }

  /** Counting placeholders of a concatenation adds the counts of the parts. */
  lemma {:induction false} CountGeneratingAppend(a: seq<Message>, b: seq<Message>)
    ensures CountGenerating(a + b) == CountGenerating(a) + CountGenerating(b)
    decreases |b|
  {
    if b != [] {
      var init := b[..|b| - 1];
      assert (a + b)[..|a + b| - 1] == a + init;
      assert (a + b)[|a + b| - 1] == b[|b| - 1];
      CountGeneratingAppend(a, init);
    } else {
      assert a + b == a;
    }
  }

  /** The filter leaves a transcript without placeholders unchanged. */
  lemma {:induction false} RemoveGeneratingNoop(ms: seq<Message>)
    requires NoneGenerating(ms)
    ensures RemoveGenerating(ms) == ms
    decreases |ms|
  {
    if ms != [] {
      RemoveGeneratingNoop(ms[..|ms| - 1]);
      assert ms == ms[..|ms| - 1] + [ms[|ms| - 1]];
    }
  }

  /**
   * Appending a message and then a placeholder to a transcript without
   * placeholders, and filtering, leaves just the appended message added.
   */
  lemma RemoveTrailingPlaceholder(ms: seq<Message>, m: Message, placeholder: Message)
    requires NoneGenerating(ms) && !m.isGenerating && placeholder.isGenerating
    ensures RemoveGenerating(ms + [m, placeholder]) == ms + [m]
  {
    assert ms + [m, placeholder] == (ms + [m]) + [placeholder];
    RemoveGeneratingAppend(ms + [m], [placeholder]);
    RemoveGeneratingAppend(ms, [m]);
    RemoveGeneratingNoop(ms);
  }
}
