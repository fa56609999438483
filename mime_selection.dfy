/** Choice of the encoder's container/codec (the loop in `startRecording`,
    script.js lines 88-96): the first entry of a fixed preference list that
    the platform reports as supported. `MediaRecorder.isTypeSupported` is the
    parameter `isTypeSupported`. It is only ever asked about the five
    candidates, whose strings are distinct (`NamesDistinct`), so it is
    modelled as a predicate over the candidates. */
module MimeSelection {
  import opened Wrappers

  /** The five candidate formats. */
  datatype MimeType = MatroskaH264 | WebmVp9 | WebmVp8 | Webm | Mp4
  {
    /** The MIME string asked about and handed to the encoder. */
    function Name(): string
    {
      match this
      case MatroskaH264 => "video/x-matroska;codecs=h264"
      case WebmVp9 => "video/webm;codecs=vp9"
      case WebmVp8 => "video/webm;codecs=vp8"
      case Webm => "video/webm"
      case Mp4 => "video/mp4"
    }
  }

  /** Distinct candidates are distinct strings, so a predicate on the
      strings is the same as a predicate on the candidates. */
  lemma NamesDistinct(a: MimeType, b: MimeType)
    requires a.Name() == b.Name()
    ensures a == b
  {
  }

  /** The candidates, most preferred first. */
  const PreferredMimeTypes: seq<MimeType> := [MatroskaH264, WebmVp9, WebmVp8, Webm, Mp4]

  /** `candidates[k]` is supported and every candidate before it is not. */
  predicate IsFirstSupportedAt(candidates: seq<MimeType>, isTypeSupported: MimeType -> bool, k: nat)
    requires k < |candidates|
  {
    isTypeSupported(candidates[k]) && forall j :: 0 <= j < k ==> !isTypeSupported(candidates[j])
  }

  /** The first supported candidate, if any. */
  function FirstSupported(candidates: seq<MimeType>, isTypeSupported: MimeType -> bool): (r: Option<MimeType>)
    ensures r.Some? ==> isTypeSupported(r.value)
  {
    if candidates == [] then None
    else if isTypeSupported(candidates[0]) then Some(candidates[0])
    else FirstSupported(candidates[1..], isTypeSupported)
  }

  /** Both directions of "some candidate is supported", and for a found type:
      it is a candidate, it is supported, and no earlier candidate is. */
  lemma {:induction false} FirstSupportedIsFirst(candidates: seq<MimeType>, isTypeSupported: MimeType -> bool)
    ensures var r := FirstSupported(candidates, isTypeSupported);
      && (r.None? <==> forall i :: 0 <= i < |candidates| ==> !isTypeSupported(candidates[i]))
      && (r.Some? ==> exists k :: 0 <= k < |candidates| && candidates[k] == r.value && IsFirstSupportedAt(candidates, isTypeSupported, k))
  {
    if candidates != [] && !isTypeSupported(candidates[0]) {
      var rest := FirstSupported(candidates[1..], isTypeSupported);
      FirstSupportedIsFirst(candidates[1..], isTypeSupported);
      if rest.Some? {
        var k :| 0 <= k < |candidates| - 1 && candidates[1..][k] == rest.value && IsFirstSupportedAt(candidates[1..], isTypeSupported, k);
        assert IsFirstSupportedAt(candidates, isTypeSupported, k + 1);
      } else {
        assert forall i :: 1 <= i < |candidates| ==> candidates[i] == candidates[1..][i - 1];
      }
    } else if candidates != [] {
      assert IsFirstSupportedAt(candidates, isTypeSupported, 0);
    }
  }

  /** The selection loop of `startRecording`: scan the preference list and stop
      at the first supported entry; `None` when none is supported. */
  method SelectMimeType(isTypeSupported: MimeType -> bool) returns (selected: Option<MimeType>)
    ensures selected == FirstSupported(PreferredMimeTypes, isTypeSupported)
  {
    selected := None;
    for i := 0 to |PreferredMimeTypes|
      invariant selected.None?
      invariant forall j :: 0 <= j < i ==> !isTypeSupported(PreferredMimeTypes[j])
    {
      if isTypeSupported(PreferredMimeTypes[i]) {
        selected := Some(PreferredMimeTypes[i]);
        assert IsFirstSupportedAt(PreferredMimeTypes, isTypeSupported, i);
        break;
      }
    }
    FirstSupportedIsFirst(PreferredMimeTypes, isTypeSupported);
  }
}
