/** The extraction client (`process_input`): the empty-input guard, the
    ordered list of content parts sent to the provider, and the search over
    a fixed list of candidate models that skips text-only models when media
    is present, returns the first success and raises once the list is
    exhausted.  The provider call together with the JSON parse of its reply
    is an oracle `call(model, parts)` that either succeeds with parsed data
    of type `D` or fails with an error text. */
module Extraction {
  import opened Strings

  type Byte = b: int | 0 <= b < 256

  /** An uploaded image: its declared MIME type and its bytes. */
  datatype Upload = Upload(mimeType: string, data: seq<Byte>)

  /** One element of the request: the text, or a binary part with its type. */
  datatype Part = TextPart(text: string) | BlobPart(mimeType: string, data: seq<Byte>)

  /** What one candidate model gives: the parsed reply, or the text of the
      exception raised by the provider call or by the JSON parse. */
  datatype CallResult<D> = Success(data: D) | Failure(error: string)

  /** The provider call plus `json.loads`, per model name and request. */
  type Provider<D> = (string, seq<Part>) -> CallResult<D>

  /** What `process_input` does: return `{}`, return the parsed data, or
      raise a RuntimeError with the given message. */
  datatype Outcome<D> = EmptyResult | Returned(data: D) | Raised(message: string)

  const DefaultInstruction: string := "Analyze this content and extract tasks/memos."
  const AudioMime: string := "audio/wav"
  const CandidateModels: seq<string> := ["gemini-3-flash-preview", "gemini-1.5-flash"]
  const FailurePrefix: string := "All models failed. Last error: "

  // ---------------------------------------------------------------------
  // The empty-input guard
  // ---------------------------------------------------------------------

  /** `not (user_text.strip() or image_file or audio_file)` */
  predicate IsEmptyInput(text: string, image: Option<Upload>, audio: Option<seq<Byte>>)
  {
    Strip(text) == "" && image.None? && audio.None?
  }

  predicate HasMedia(image: Option<Upload>, audio: Option<seq<Byte>>)
  {
    image.Some? || audio.Some?
  }

  /** The guard fires exactly when the text is all whitespace and there is
      neither an image nor an audio recording. */
  lemma EmptyInputIff(text: string, image: Option<Upload>, audio: Option<seq<Byte>>)
    ensures IsEmptyInput(text, image, audio) <==> IsBlank(text) && !HasMedia(image, audio)
  {
    StripEmptyIff(text);
  }

  // ---------------------------------------------------------------------
  // Content parts
  // ---------------------------------------------------------------------

  function ContentParts(text: string, image: Option<Upload>, audio: Option<seq<Byte>>): seq<Part>
  {
    [TextPart(if text != "" then text else DefaultInstruction)]
      + (if image.Some? then [BlobPart(image.value.mimeType, image.value.data)] else [])
      + (if audio.Some? then [BlobPart(AudioMime, audio.value)] else [])
  }

  /** Builds the request parts by appending, in the source's order. */
  method AssembleParts(text: string, image: Option<Upload>, audio: Option<seq<Byte>>)
    returns (parts: seq<Part>)
    ensures parts == ContentParts(text, image, audio)
    ensures |parts| == 1 + (if image.Some? then 1 else 0) + (if audio.Some? then 1 else 0)
    ensures parts[0] == TextPart(if text != "" then text else DefaultInstruction)
    ensures image.Some? ==> parts[1] == BlobPart(image.value.mimeType, image.value.data)
    ensures audio.Some? ==> parts[|parts| - 1] == BlobPart(AudioMime, audio.value)
    ensures forall i :: 1 <= i < |parts| ==> parts[i].BlobPart?
  {
    parts := [];
    if text != "" {
      parts := parts + [TextPart(text)];
    } else {
      parts := parts + [TextPart(DefaultInstruction)];
    }
    if image.Some? {
      parts := parts + [BlobPart(image.value.mimeType, image.value.data)];
    }
    if audio.Some? {
      parts := parts + [BlobPart(AudioMime, audio.value)];
    }
  }

  /** Text made only of whitespace is not replaced by the default
      instruction: when media is present it is sent as it is. */
  lemma BlankTextKeptWithMedia(text: string, image: Option<Upload>, audio: Option<seq<Byte>>)
    requires text != "" && IsBlank(text) && HasMedia(image, audio)
    ensures !IsEmptyInput(text, image, audio)
    ensures ContentParts(text, image, audio)[0] == TextPart(text)
  {
  }

  // ---------------------------------------------------------------------
  // Which models take media
  // ---------------------------------------------------------------------

  /** The version tags whose presence in a model name marks it multimodal. */
  const MultimodalTags: seq<string> := ["1.5", "2.0", "2.5", "gemini-3"]

  /** `"1.5" in name or "2.0" in name or "2.5" in name or "gemini-3" in name` */
  function IsMultimodal(name: string): (r: bool)
    ensures r <==> exists k :: 0 <= k < |MultimodalTags| && Occurs(name, MultimodalTags[k])
  {
    var r := Contains(name, "1.5") || Contains(name, "2.0") || Contains(name, "2.5") || Contains(name, "gemini-3");
    assert r <==> exists k :: 0 <= k < |MultimodalTags| && Occurs(name, MultimodalTags[k]) by {
      ContainsIff(name, "1.5");
      ContainsIff(name, "2.0");
      ContainsIff(name, "2.5");
      ContainsIff(name, "gemini-3");
      assert MultimodalTags[0] == "1.5" && MultimodalTags[1] == "2.0";
      assert MultimodalTags[2] == "2.5" && MultimodalTags[3] == "gemini-3";
    }
    r
  }

  /** A candidate is skipped, without being called, when media is present
      and the model is not multimodal. */
  predicate Skipped(name: string, hasMedia: bool)
  {
    hasMedia && !IsMultimodal(name)
  }

  /** Both models of the fixed list take media, so with this list no
      candidate is ever skipped. */
  lemma CandidatesAreMultimodal()
    ensures forall n :: n in CandidateModels ==> IsMultimodal(n)
  {
    var a, b := CandidateModels[0], CandidateModels[1];
    assert MultimodalTags[3] == "gemini-3" && OccursAt(a, "gemini-3", 0);
    assert Occurs(a, MultimodalTags[3]);
    assert MultimodalTags[0] == "1.5" && OccursAt(b, "1.5", 7);
    assert Occurs(b, MultimodalTags[0]);
  }

  /** A name without a dot and without a '3', such as "gemini-pro", carries
      none of the tags, so it is skipped whenever media is present. */
  lemma NameWithoutTagsIsTextOnly(name: string)
    requires '.' !in name && '3' !in name
    ensures !IsMultimodal(name)
  {
    forall k | 0 <= k < |MultimodalTags| && Occurs(name, MultimodalTags[k])
      ensures false
    {
      var i :| OccursAt(name, MultimodalTags[k], i);
      if k < 3 {
        OccursAtChar(name, MultimodalTags[k], i, 1);
      } else {
        OccursAtChar(name, MultimodalTags[k], i, 7);
      }
    }
  }

  // ---------------------------------------------------------------------
  // The candidate search
  // ---------------------------------------------------------------------

  /** How the search over candidates ends: with the parsed data of the
      first success, or with the last error recorded (None when no
      candidate was called). */
  datatype Search<D> = Found(data: D) | Exhausted(lastError: Option<string>)

  /** The search over `cands`, with `lastError` the error recorded so far. */
  function Fallback<D>(cands: seq<string>, hasMedia: bool, parts: seq<Part>, call: Provider<D>,
                       lastError: Option<string>): Search<D>
    decreases |cands|
  {
    if cands == [] then Exhausted(lastError)
    else if Skipped(cands[0], hasMedia) then Fallback(cands[1..], hasMedia, parts, call, lastError)
    else match call(cands[0], parts)
      case Success(d) => Found(d)
      case Failure(e) => Fallback(cands[1..], hasMedia, parts, call, Some(e))
  }

  /** The models the search actually calls, in order. */
  ghost function Consulted<D>(cands: seq<string>, hasMedia: bool, parts: seq<Part>, call: Provider<D>): seq<string>
    decreases |cands|
  {
    if cands == [] then []
    else if Skipped(cands[0], hasMedia) then Consulted(cands[1..], hasMedia, parts, call)
    else if call(cands[0], parts).Success? then [cands[0]]
    else [cands[0]] + Consulted(cands[1..], hasMedia, parts, call)
  }

  /** One step of the search from candidate `i`. */
  lemma FallbackStep<D>(cands: seq<string>, i: int, hasMedia: bool, parts: seq<Part>, call: Provider<D>,
                        lastError: Option<string>)
    requires 0 <= i < |cands|
    ensures var c, next := cands[i], cands[i + 1..];
      && Fallback(cands[i..], hasMedia, parts, call, lastError)
         == (if Skipped(c, hasMedia) then Fallback(next, hasMedia, parts, call, lastError)
             else match call(c, parts)
               case Success(d) => Found(d)
               case Failure(e) => Fallback(next, hasMedia, parts, call, Some(e)))
      && Consulted(cands[i..], hasMedia, parts, call)
         == (if Skipped(c, hasMedia) then Consulted(next, hasMedia, parts, call)
             else if call(c, parts).Success? then [c]
             else [c] + Consulted(next, hasMedia, parts, call))
  {
    assert cands[i..][1..] == cands[i + 1..];
  }

  /** The loop of `process_input` over the candidates. */
  method RunCandidates<D>(cands: seq<string>, hasMedia: bool, parts: seq<Part>, call: Provider<D>)
    returns (r: Search<D>, ghost consulted: seq<string>)
    ensures r == Fallback(cands, hasMedia, parts, call, None)
    ensures consulted == Consulted(cands, hasMedia, parts, call)
  {
    var lastError: Option<string> := None;
    consulted := [];
    var i := 0;
    while i < |cands|
      invariant 0 <= i <= |cands|
      invariant Fallback(cands, hasMedia, parts, call, None) == Fallback(cands[i..], hasMedia, parts, call, lastError)
      invariant Consulted(cands, hasMedia, parts, call) == consulted + Consulted(cands[i..], hasMedia, parts, call)
    {
      FallbackStep(cands, i, hasMedia, parts, call, lastError);
      var name := cands[i];
      var multimodal := IsMultimodal(name);
      if hasMedia && !multimodal {
        i := i + 1;
        continue;
      }
      consulted := consulted + [name];
      var response := call(name, parts);
      match response {
        case Success(data) =>
          r := Found(data);
          return;
        case Failure(e) =>
          // The source tests the error text for "404" / "not found" here,
          // but both arms of that test continue with the next candidate.
          lastError := Some(e);
          i := i + 1;
      }
    }
    r := Exhausted(lastError);
  }

  /** Candidate `i` is the one whose data the search returns: it is not
      skipped, its call succeeds, and every earlier candidate that was not
      skipped failed. */
  ghost predicate Winner<D>(cands: seq<string>, hasMedia: bool, parts: seq<Part>, call: Provider<D>, i: int)
  {
    && 0 <= i < |cands|
    && !Skipped(cands[i], hasMedia)
    && call(cands[i], parts).Success?
    && forall j :: 0 <= j < i && !Skipped(cands[j], hasMedia) ==> call(cands[j], parts).Failure?
  }

  /** The search finds `d` exactly when some candidate is the winner and its
      call gave `d`: first success wins, in list order. */
  lemma {:induction false} FallbackFoundIff<D>(cands: seq<string>, hasMedia: bool, parts: seq<Part>,
                                              call: Provider<D>, lastError: Option<string>, d: D)
    ensures Fallback(cands, hasMedia, parts, call, lastError) == Found(d)
        <==> exists i :: Winner(cands, hasMedia, parts, call, i) && call(cands[i], parts) == Success(d)
    decreases |cands|
  {
    if cands != [] {
      var rest := cands[1..];
      var e' := if !Skipped(cands[0], hasMedia) && call(cands[0], parts).Failure?
                then Some(call(cands[0], parts).error) else lastError;
      FallbackFoundIff(rest, hasMedia, parts, call, e', d);
      if Skipped(cands[0], hasMedia) || call(cands[0], parts).Failure? {
        // candidate 0 is never the winner; winners of `rest` shift by one
        if Fallback(cands, hasMedia, parts, call, lastError) == Found(d) {
          var i :| Winner(rest, hasMedia, parts, call, i) && call(rest[i], parts) == Success(d);
          assert Winner(cands, hasMedia, parts, call, i + 1);
        }
        if exists i :: Winner(cands, hasMedia, parts, call, i) && call(cands[i], parts) == Success(d) {
          var i :| Winner(cands, hasMedia, parts, call, i) && call(cands[i], parts) == Success(d);
          assert i != 0;
          assert Winner(rest, hasMedia, parts, call, i - 1);
        }
      } else {
        assert Winner(cands, hasMedia, parts, call, 0);
        forall i | Winner(cands, hasMedia, parts, call, i)
          ensures i == 0
        {
        }
      }
    }
  }

  /** Candidate `k` is the last one called, and it failed with `e`. */
  ghost predicate FailedLast<D>(cands: seq<string>, hasMedia: bool, parts: seq<Part>, call: Provider<D>,
                                k: int, e: string)
  {
    && 0 <= k < |cands|
    && !Skipped(cands[k], hasMedia)
    && call(cands[k], parts) == Failure(e)
    && forall j :: k < j < |cands| ==> Skipped(cands[j], hasMedia)
  }

  /** The search is exhausted exactly when every candidate that is not
      skipped fails; the error it carries is that of the last candidate
      called, or the initial one when every candidate was skipped. */
  lemma {:induction false} FallbackExhausted<D>(cands: seq<string>, hasMedia: bool, parts: seq<Part>,
                                               call: Provider<D>, lastError: Option<string>)
    ensures Fallback(cands, hasMedia, parts, call, lastError).Exhausted?
        <==> forall i :: 0 <= i < |cands| && !Skipped(cands[i], hasMedia) ==> call(cands[i], parts).Failure?
    ensures Fallback(cands, hasMedia, parts, call, lastError).Exhausted? ==>
      var le := Fallback(cands, hasMedia, parts, call, lastError).lastError;
      || (le == lastError && forall i :: 0 <= i < |cands| ==> Skipped(cands[i], hasMedia))
      || (le.Some? && exists k :: FailedLast(cands, hasMedia, parts, call, k, le.value))
    decreases |cands|
  {
    if cands != [] {
      var rest := cands[1..];
      if Skipped(cands[0], hasMedia) {
        FallbackExhausted(rest, hasMedia, parts, call, lastError);
        var r := Fallback(cands, hasMedia, parts, call, lastError);
        assert r == Fallback(rest, hasMedia, parts, call, lastError);
        assert forall i :: 1 <= i < |cands| ==> cands[i] == rest[i - 1];
        if r.Exhausted? && r.lastError.Some? && exists k :: FailedLast(rest, hasMedia, parts, call, k, r.lastError.value) {
          var k :| FailedLast(rest, hasMedia, parts, call, k, r.lastError.value);
          assert FailedLast(cands, hasMedia, parts, call, k + 1, r.lastError.value);
        }
      } else if call(cands[0], parts).Failure? {
        var e := call(cands[0], parts).error;
        FallbackExhausted(rest, hasMedia, parts, call, Some(e));
        var r := Fallback(cands, hasMedia, parts, call, lastError);
        assert r == Fallback(rest, hasMedia, parts, call, Some(e));
        assert forall i :: 1 <= i < |cands| ==> cands[i] == rest[i - 1];
        if r.Exhausted? {
          if exists k :: FailedLast(rest, hasMedia, parts, call, k, r.lastError.value) {
            var k :| FailedLast(rest, hasMedia, parts, call, k, r.lastError.value);
            assert FailedLast(cands, hasMedia, parts, call, k + 1, r.lastError.value);
          } else {
            assert FailedLast(cands, hasMedia, parts, call, 0, e);
          }
        }
      }
    }
  }

  /** Only the consulted models matter: a provider that agrees with `call`
      on every model the search called gives the same search, so skipped
      candidates and candidates after the first success are never used. */
  lemma {:induction false} ConsultedDetermines<D>(cands: seq<string>, hasMedia: bool, parts: seq<Part>,
                                                 call: Provider<D>, other: Provider<D>, lastError: Option<string>)
    requires forall n :: n in Consulted(cands, hasMedia, parts, call) ==> other(n, parts) == call(n, parts)
    ensures Fallback(cands, hasMedia, parts, other, lastError) == Fallback(cands, hasMedia, parts, call, lastError)
    ensures Consulted(cands, hasMedia, parts, other) == Consulted(cands, hasMedia, parts, call)
    decreases |cands|
  {
    if cands != [] && !Skipped(cands[0], hasMedia) {
      assert cands[0] in Consulted(cands, hasMedia, parts, call);
      if call(cands[0], parts).Failure? {
        ConsultedDetermines(cands[1..], hasMedia, parts, call, other, Some(call(cands[0], parts).error));
      }
    } else if cands != [] {
      ConsultedDetermines(cands[1..], hasMedia, parts, call, other, lastError);
    }
  }

  /** The candidates that are not skipped, in list order. */
  function EligibleOf(cands: seq<string>, hasMedia: bool): (r: seq<string>)
    ensures |r| <= |cands|
    decreases |cands|
  {
    if cands == [] then []
    else (if Skipped(cands[0], hasMedia) then [] else [cands[0]]) + EligibleOf(cands[1..], hasMedia)
  }

  /** The models called are exactly the candidates that are not skipped, in
      list order: all of them when the search is exhausted, and those up to
      and including the winner when it succeeds.  Nothing after the first
      success is called. */
  lemma {:induction false} ConsultedIsEligiblePrefix<D>(cands: seq<string>, hasMedia: bool, parts: seq<Part>,
                                                       call: Provider<D>, lastError: Option<string>)
    ensures Fallback(cands, hasMedia, parts, call, lastError).Exhausted? ==>
      Consulted(cands, hasMedia, parts, call) == EligibleOf(cands, hasMedia)
    ensures forall w :: Winner(cands, hasMedia, parts, call, w) ==>
      Consulted(cands, hasMedia, parts, call) == EligibleOf(cands[..w + 1], hasMedia)
    decreases |cands|
  {
    if cands != [] {
      var c, rest := cands[0], cands[1..];
      var e' := if !Skipped(c, hasMedia) && call(c, parts).Failure? then Some(call(c, parts).error) else lastError;
      ConsultedIsEligiblePrefix(rest, hasMedia, parts, call, e');
      forall w | Winner(cands, hasMedia, parts, call, w)
        ensures Consulted(cands, hasMedia, parts, call) == EligibleOf(cands[..w + 1], hasMedia)
      {
        var pre := cands[..w + 1];
        assert pre[0] == c;
        if Skipped(c, hasMedia) || call(c, parts).Failure? {
          assert w != 0;
          assert Winner(rest, hasMedia, parts, call, w - 1);
          assert pre[1..] == rest[..w];
        } else {
          assert w == 0;
          assert pre[1..] == [];
        }
      }
    }
  }

  /** Every consulted model is a candidate that is not skipped. */
  lemma {:induction false} ConsultedAreEligible<D>(cands: seq<string>, hasMedia: bool, parts: seq<Part>,
                                                  call: Provider<D>)
    ensures forall n :: n in Consulted(cands, hasMedia, parts, call) ==> n in cands && !Skipped(n, hasMedia)
    decreases |cands|
  {
    if cands != [] {
      var rest := cands[1..];
      ConsultedAreEligible(rest, hasMedia, parts, call);
      assert forall n :: n in rest ==> n in cands;
    }
  }

  /** On success the last model consulted gave the data and all before it
      failed; on exhaustion every one consulted failed. */
  lemma {:induction false} ConsultedShape<D>(cands: seq<string>, hasMedia: bool, parts: seq<Part>,
                                            call: Provider<D>, lastError: Option<string>)
    ensures var c := Consulted(cands, hasMedia, parts, call);
      && (forall j :: 0 <= j < |c| - 1 ==> call(c[j], parts).Failure?)
      && match Fallback(cands, hasMedia, parts, call, lastError)
         case Found(d) => c != [] && call(c[|c| - 1], parts) == Success(d)
         case Exhausted(_) => forall j :: 0 <= j < |c| ==> call(c[j], parts).Failure?
    decreases |cands|
  {
    if cands != [] {
      var rest := cands[1..];
      if Skipped(cands[0], hasMedia) {
        ConsultedShape(rest, hasMedia, parts, call, lastError);
        assert Consulted(cands, hasMedia, parts, call) == Consulted(rest, hasMedia, parts, call);
        assert Fallback(cands, hasMedia, parts, call, lastError) == Fallback(rest, hasMedia, parts, call, lastError);
      } else if call(cands[0], parts).Failure? {
        var e := call(cands[0], parts).error;
        ConsultedShape(rest, hasMedia, parts, call, Some(e));
        var c, c' := Consulted(cands, hasMedia, parts, call), Consulted(rest, hasMedia, parts, call);
        assert c == [cands[0]] + c';
        assert Fallback(cands, hasMedia, parts, call, lastError) == Fallback(rest, hasMedia, parts, call, Some(e));
        assert forall j :: 1 <= j < |c| ==> c[j] == c'[j - 1];
      }
    }
  }

  /** The error text of a failed candidate never changes the course of the
      search: two providers that succeed and fail on the same models, with
      the same data, give the same data, or both exhaust the list. */
  lemma {:induction false} ErrorTextIrrelevant<D>(cands: seq<string>, hasMedia: bool, parts: seq<Part>,
                                                 call: Provider<D>, other: Provider<D>,
                                                 e1: Option<string>, e2: Option<string>)
    requires forall n :: call(n, parts).Success? <==> other(n, parts).Success?
    requires forall n :: call(n, parts).Success? ==> call(n, parts) == other(n, parts)
    ensures var r1, r2 := Fallback(cands, hasMedia, parts, call, e1), Fallback(cands, hasMedia, parts, other, e2);
      r1.Found? <==> r2.Found?
    ensures var r1, r2 := Fallback(cands, hasMedia, parts, call, e1), Fallback(cands, hasMedia, parts, other, e2);
      r1.Found? ==> r1 == r2
    decreases |cands|
  {
    if cands != [] {
      var n := cands[0];
      if Skipped(n, hasMedia) {
        ErrorTextIrrelevant(cands[1..], hasMedia, parts, call, other, e1, e2);
      } else if call(n, parts).Failure? {
        ErrorTextIrrelevant(cands[1..], hasMedia, parts, call, other,
                            Some(call(n, parts).error), Some(other(n, parts).error));
      }
    }
  }

  /** The fallback scenario: the first candidate fails, the second succeeds;
      the search returns the second one's data and calls nothing after it. */
  lemma SecondCandidateRescues<D>(cands: seq<string>, hasMedia: bool, parts: seq<Part>, call: Provider<D>, d: D)
    requires |cands| >= 2
    requires !Skipped(cands[0], hasMedia) && !Skipped(cands[1], hasMedia)
    requires call(cands[0], parts).Failure? && call(cands[1], parts) == Success(d)
    ensures Fallback(cands, hasMedia, parts, call, None) == Found(d)
    ensures Consulted(cands, hasMedia, parts, call) == [cands[0], cands[1]]
  {
    assert cands[1..][0] == cands[1];
  }

  // ---------------------------------------------------------------------
  // process_input
  // ---------------------------------------------------------------------

  /** The message of the RuntimeError raised once every candidate failed;
      with no recorded error it reads "None". */
  function FailureMessage(lastError: Option<string>): string
  {
    FailurePrefix + PyStr(lastError)
  }

  function Process<D>(text: string, image: Option<Upload>, audio: Option<seq<Byte>>, call: Provider<D>): Outcome<D>
  {
    if IsEmptyInput(text, image, audio) then EmptyResult
    else match Fallback(CandidateModels, HasMedia(image, audio), ContentParts(text, image, audio), call, None)
      case Found(d) => Returned(d)
      case Exhausted(e) => Raised(FailureMessage(e))
  }

  /** The models `process_input` calls, in order. */
  ghost function ProcessCalls<D>(text: string, image: Option<Upload>, audio: Option<seq<Byte>>, call: Provider<D>): seq<string>
  {
    if IsEmptyInput(text, image, audio) then []
    else Consulted(CandidateModels, HasMedia(image, audio), ContentParts(text, image, audio), call)
  }

  /** `process_input(api_key, user_text, image_file, audio_file)`. */
  method ProcessInput<D>(text: string, image: Option<Upload>, audio: Option<seq<Byte>>, call: Provider<D>)
    returns (r: Outcome<D>, ghost calls: seq<string>)
    ensures r == Process(text, image, audio, call)
    ensures calls == ProcessCalls(text, image, audio, call)
  {
    if Strip(text) == "" && image.None? && audio.None? {
      return EmptyResult, [];
    }
    var parts := AssembleParts(text, image, audio);
    var search;
    search, calls := RunCandidates(CandidateModels, image.Some? || audio.Some?, parts, call);
    match search {
      case Found(d) => r := Returned(d);
      case Exhausted(e) => r := Raised(FailureMessage(e));
    }
  }

  /** `process_input` returns `{}` exactly for the empty input, and then it
      calls no model. */
  lemma EmptyResultIff<D>(text: string, image: Option<Upload>, audio: Option<seq<Byte>>, call: Provider<D>)
    ensures Process(text, image, audio, call) == EmptyResult
        <==> IsBlank(text) && !HasMedia(image, audio)
    ensures IsBlank(text) && !HasMedia(image, audio) ==> ProcessCalls(text, image, audio, call) == []
  {
    EmptyInputIff(text, image, audio);
  }

  /** For a non-empty input, `process_input` returns data exactly when some
      candidate of the fixed list succeeds, and then it is the data of the
      first one (in list order) that succeeds. */
  lemma ProcessReturnsFirstSuccess<D>(text: string, image: Option<Upload>, audio: Option<seq<Byte>>,
                                      call: Provider<D>, d: D)
    requires !IsEmptyInput(text, image, audio)
    ensures Process(text, image, audio, call) == Returned(d)
        <==> exists i :: Winner(CandidateModels, HasMedia(image, audio), ContentParts(text, image, audio), call, i)
                      && call(CandidateModels[i], ContentParts(text, image, audio)) == Success(d)
  {
    FallbackFoundIff(CandidateModels, HasMedia(image, audio), ContentParts(text, image, audio), call, None, d);
  }

  /** When the last candidate is never skipped, an exhausted search carries
      that candidate's error: it is the last one called, and it failed. */
  lemma {:induction false} ExhaustedByLast<D>(cands: seq<string>, hasMedia: bool, parts: seq<Part>,
                                             call: Provider<D>, lastError: Option<string>)
    requires cands != [] && !Skipped(cands[|cands| - 1], hasMedia)
    ensures var last := cands[|cands| - 1];
      Fallback(cands, hasMedia, parts, call, lastError).Exhausted? ==>
        && call(last, parts).Failure?
        && Fallback(cands, hasMedia, parts, call, lastError).lastError == Some(call(last, parts).error)
  {
    FallbackExhausted(cands, hasMedia, parts, call, lastError);
    var r := Fallback(cands, hasMedia, parts, call, lastError);
    if r.Exhausted? {
      assert !(forall i :: 0 <= i < |cands| ==> Skipped(cands[i], hasMedia));
      var k :| FailedLast(cands, hasMedia, parts, call, k, r.lastError.value);
      assert k == |cands| - 1;
    }
  }

  /** For a non-empty input, `process_input` raises exactly when every
      candidate fails.  No candidate of the fixed list is ever skipped, so
      the message always carries the error of the last candidate in the
      list. */
  lemma ProcessRaisesLastError<D>(text: string, image: Option<Upload>, audio: Option<seq<Byte>>, call: Provider<D>)
    requires !IsEmptyInput(text, image, audio)
    ensures var parts, m := ContentParts(text, image, audio), HasMedia(image, audio);
      Process(text, image, audio, call).Raised? <==>
        forall i :: 0 <= i < |CandidateModels| && !Skipped(CandidateModels[i], m)
          ==> call(CandidateModels[i], parts).Failure?
    ensures var parts, last := ContentParts(text, image, audio), CandidateModels[|CandidateModels| - 1];
      Process(text, image, audio, call).Raised? ==>
        && call(last, parts).Failure?
        && Process(text, image, audio, call).message == FailurePrefix + call(last, parts).error
  {
    var parts, m := ContentParts(text, image, audio), HasMedia(image, audio);
    FallbackExhausted(CandidateModels, m, parts, call, None);
    CandidatesAreMultimodal();
    assert CandidateModels[|CandidateModels| - 1] in CandidateModels;
    ExhaustedByLast(CandidateModels, m, parts, call, None);
  }
}
