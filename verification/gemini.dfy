/** The assistant service's control logic: the retry wrapper around every
    text request and the extraction of the generated avatar image. The
    remote calls themselves are parameters: `call(k)` is the outcome of the
    k-th attempt, either a value or a thrown error. */
module Gemini {
  import opened Types
  import Text

  datatype Attempt<T, E> = Returned(value: T) | Threw(error: E)

  /** The outcome `retry` settles on, and how many attempts were made in all. */
  datatype Retried<T, E> = Retried(outcome: Attempt<T, E>, calls: nat)

  /** The retries every text request is given on top of its first attempt. */
  const DefaultRetries: nat := 2

  /** `retry(fn, retries)` from attempt `start` on: the first attempt that
      returns, else the error of the last one, after `retries + 1` attempts. */
  function RetryFrom<T, E>(call: nat -> Attempt<T, E>, start: nat, retries: nat): (r: Retried<T, E>)
    ensures start < r.calls <= start + retries + 1
    ensures r.outcome == call(r.calls - 1)
    ensures forall k :: start <= k < r.calls - 1 ==> call(k).Threw?
    ensures r.outcome.Threw? ==> r.calls == start + retries + 1
    decreases retries
  {
    match call(start)
    case Returned(_) => Retried(call(start), start + 1)
    case Threw(_) =>
      if retries > 0 then RetryFrom(call, start + 1, retries - 1) else Retried(call(start), start + 1)
  }

  function Retry<T, E>(call: nat -> Attempt<T, E>): Retried<T, E>
  {
    RetryFrom(call, 0, DefaultRetries)
  }

  /** The first attempt, from `start`, that returns within `budget` attempts. */
  predicate ReturnsWithin<T, E>(call: nat -> Attempt<T, E>, start: nat, budget: nat)
  {
    exists k | start <= k < start + budget :: call(k).Returned?
  }

  /** A request succeeds exactly when one of its three attempts returns, and
      then its value is that of the first attempt that returned. */
  lemma RetrySucceedsIffSomeAttemptReturns<T, E>(call: nat -> Attempt<T, E>)
    ensures Retry(call).outcome.Returned? <==> ReturnsWithin(call, 0, DefaultRetries + 1)
    ensures Retry(call).outcome.Returned? ==>
              exists k :: 0 <= k <= DefaultRetries && Retry(call).outcome == call(k) &&
                          forall j :: 0 <= j < k ==> call(j).Threw?
  {
    var r := Retry(call);
    if r.outcome.Threw? {
      forall k | 0 <= k < DefaultRetries + 1
        ensures call(k).Threw?
      {
        if k < r.calls - 1 {
        } else {
          assert k == r.calls - 1;
        }
      }
    } else {
      assert call(r.calls - 1).Returned?;
    }
  }

  /** An attempt that keeps throwing is made three times and its last error
      surfaces. */
  lemma RetryGivesUp<T, E>(call: nat -> Attempt<T, E>)
    requires forall k :: 0 <= k <= DefaultRetries ==> call(k).Threw?
    ensures Retry(call) == Retried(call(DefaultRetries), DefaultRetries + 1)
  {
  }

  /** With no retries the wrapper is the call itself. */
  lemma RetryOnce<T, E>(call: nat -> Attempt<T, E>)
    ensures RetryFrom(call, 0, 0) == Retried(call(0), 1)
  {
  }

  /** The parts of a generated response the avatar request reads. */
  datatype Part = Part(text: Option<string>, inlineData: Option<string>)
  datatype Candidate = Candidate(parts: seq<Part>)
  datatype ImageResponse = ImageResponse(candidates: seq<Candidate>)

  const ImagePrefix: string := "data:image/png;base64,"

  /** The index of the first part carrying inline data. */
  function FirstInline(parts: seq<Part>): (r: Option<nat>)
    ensures r.None? <==> forall i :: 0 <= i < |parts| ==> parts[i].inlineData.None?
    ensures r.Some? ==> r.value < |parts| && parts[r.value].inlineData.Some? &&
                        forall i :: 0 <= i < r.value ==> parts[i].inlineData.None?
    decreases |parts|
  {
    if |parts| == 0 then None
    else if parts[0].inlineData.Some? then Some(0)
    else
      match FirstInline(parts[1..])
      case None => None
      case Some(i) => Some(i + 1)
  }

  /** `generateAvatar`: a PNG data URL of the first inline part of the first
      candidate; nothing when the request throws, when there is no candidate
      (reading the first one throws and is caught) or when no part carries
      inline data. */
  function AvatarUrl<E>(response: Attempt<ImageResponse, E>): (r: Option<string>)
    ensures r.Some? <==> response.Returned? && |response.value.candidates| > 0 &&
                         exists i :: 0 <= i < |response.value.candidates[0].parts| &&
                                     response.value.candidates[0].parts[i].inlineData.Some?
    ensures r.Some? ==> Text.StartsWith(r.value, ImagePrefix)
  {
    match response
    case Threw(_) => None
    case Returned(resp) =>
      if |resp.candidates| == 0 then None
      else
        match FirstInline(resp.candidates[0].parts)
        case None => None
        case Some(i) => Some(ImagePrefix + resp.candidates[0].parts[i].inlineData.value)
  }

  /** Reading the image data back out of the URL gives the data of the first
      inline part. */
  lemma AvatarUrlCarriesData<E>(response: Attempt<ImageResponse, E>)
    requires AvatarUrl(response).Some?
    ensures var url := AvatarUrl(response).value;
            var parts := response.value.candidates[0].parts;
            var i := FirstInline(parts).value;
            url[|ImagePrefix|..] == parts[i].inlineData.value
  {
  }

  /** `handleGenerateAvatar`: the form takes the URL when one came back. */
  function ApplyAvatar(form: UserProfile, avatar: Option<string>): UserProfile
  {
    match avatar
    case Some(url) => if url != "" then form.(avatarUrl := Some(url)) else form
    case None => form
  }

  /** Whatever the response, the form either shows the new image or keeps
      its previous avatar: it never loses one. */
  lemma AvatarNeverLost<E>(form: UserProfile, response: Attempt<ImageResponse, E>)
    ensures var r := ApplyAvatar(form, AvatarUrl(response));
            r.avatarUrl == (if AvatarUrl(response).Some? then AvatarUrl(response) else form.avatarUrl)
  {
  }
}
