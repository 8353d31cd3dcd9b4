/** The local logic of services/geminiService.ts around the image-editing
    call: reading the mime type off an input data URL, stripping its prefix,
    building the request, and picking the returned image. The network call
    itself is not modelled; its response arrives as a parameter. */
module Gemini {
  import opened Wrappers

  /** A character of the class `[a-zA-Z+]`. */
  predicate IsSubtypeChar(c: char) {
    ('a' <= c <= 'z') || ('A' <= c <= 'Z') || c == '+'
  }

  predicate AllSubtypeChars(s: string) {
    forall i | 0 <= i < |s| :: IsSubtypeChar(s[i])
  }

  /** A mime type the input pattern accepts: `image/` and one or more class characters. */
  predicate IsImageMime(m: string) {
    |m| > 6 && m[..6] == "image/" && AllSubtypeChars(m[6..])
  }

  const SchemePrefix: string := "data:image/"
  const Base64Marker: string := ";base64,"
  const DefaultMime: string := "image/png"

  /** Length of the longest prefix of `s` made of class characters. */
  function SubtypeRun(s: string): (k: nat)
    ensures k <= |s|
    ensures AllSubtypeChars(s[..k])
    ensures k < |s| ==> !IsSubtypeChar(s[k])
    decreases |s|
  {
    if |s| == 0 || !IsSubtypeChar(s[0]) then 0
    else
      var k := SubtypeRun(s[1..]);
      assert s[..k + 1] == [s[0]] + s[1..][..k];
      k + 1
  }

  datatype DataUrl = DataUrl(mimeType: string, payload: string)

  /** The match of `^data:(image/[a-zA-Z+]+);base64,` at the start of `s`:
      the captured mime type and the text after the match. Since ';' is not
      in the class, the greedy run is the only way to match. */
  function MatchDataUrl(s: string): (r: Option<DataUrl>)
    ensures r.Some? ==> IsImageMime(r.value.mimeType)
    ensures r.Some? ==> s == "data:" + r.value.mimeType + Base64Marker + r.value.payload
  {
    if |s| >= |SchemePrefix| && s[..|SchemePrefix|] == SchemePrefix then
      var rest := s[|SchemePrefix|..];
      var k := SubtypeRun(rest);
      if k >= 1 && |rest| >= k + |Base64Marker| && rest[k..k + |Base64Marker|] == Base64Marker then
        var mime := "image/" + rest[..k];
        assert mime[6..] == rest[..k];
        assert s == SchemePrefix + rest;
        RebuildDataUrl(s, rest, k);
        Some(DataUrl(mime, rest[k + |Base64Marker|..]))
      else None
    else None
  }

  /** The text around a marker found after the scheme reassembles the input. */
  lemma RebuildDataUrl(s: string, rest: string, k: nat)
    requires s == SchemePrefix + rest
    requires k + |Base64Marker| <= |rest| && rest[k..k + |Base64Marker|] == Base64Marker
    ensures s == "data:" + ("image/" + rest[..k]) + Base64Marker + rest[k + |Base64Marker|..]
  {
    assert rest == rest[..k] + Base64Marker + rest[k + |Base64Marker|..];
    assert SchemePrefix == "data:" + "image/";
  }

  /** The mime type sent with the image: the captured one, else "image/png". */
  function MimeTypeOf(s: string): (m: string)
    ensures MatchDataUrl(s).Some? ==> m == MatchDataUrl(s).value.mimeType
    ensures MatchDataUrl(s).None? ==> m == DefaultMime
  {
    match MatchDataUrl(s)
    case Some(d) => d.mimeType
    case None => DefaultMime
  }

  /** The base64 text sent: the input with the matched prefix removed once. */
  function CleanBase64(s: string): (c: string)
    ensures MatchDataUrl(s).None? ==> c == s
    ensures MatchDataUrl(s).Some? ==> s == "data:" + MimeTypeOf(s) + Base64Marker + c
  {
    match MatchDataUrl(s)
    case Some(d) => d.payload
    case None => s
  }

  /** The prefix is stripped exactly when a mime type was read from it. */
  lemma StrippedIffMatched(s: string)
    ensures CleanBase64(s) != s <==> MatchDataUrl(s).Some?
  {
    if MatchDataUrl(s).Some? {
      assert |s| > |CleanBase64(s)|;
    }
  }

  lemma SubtypeRunStopsAtMarker(sub: string, tail: string)
    requires AllSubtypeChars(sub)
    requires |tail| > 0 && tail[0] == ';'
    ensures SubtypeRun(sub + tail) == |sub|
    decreases |sub|
  {
    if |sub| > 0 {
      assert (sub + tail)[1..] == sub[1..] + tail;
      SubtypeRunStopsAtMarker(sub[1..], tail);
    } else {
      assert sub + tail == tail;
    }
  }

  /** Assembling a data URL and matching it again gives back both parts. */
  lemma DataUrlRoundTrip(mime: string, data: string)
    requires IsImageMime(mime)
    ensures MatchDataUrl("data:" + mime + Base64Marker + data) == Some(DataUrl(mime, data))
  {
    var s := "data:" + mime + Base64Marker + data;
    var sub := mime[6..];
    assert mime == "image/" + sub;
    assert s == SchemePrefix + (sub + (Base64Marker + data));
    var rest := s[|SchemePrefix|..];
    assert rest == sub + (Base64Marker + data);
    SubtypeRunStopsAtMarker(sub, Base64Marker + data);
    assert rest[..|sub|] == sub;
    assert rest[|sub|..] == Base64Marker + data;
  }

  /** One part of a model response. */
  datatype InlineData = InlineData(mimeType: Option<string>, data: Option<string>)
  datatype Part = Part(inlineData: Option<InlineData>, text: Option<string>)

  predicate HasImage(p: Part) {
    p.inlineData.Some? && p.inlineData.value.data.Some? && p.inlineData.value.data.value != ""
  }

  /** `data:<mime or image/png>;base64,<data>` for an image part. */
  function ImageUrl(p: Part): (r: string)
    requires HasImage(p)
    ensures |r| > |p.inlineData.value.data.value| + 5 && r[..5] == "data:"
    ensures r[|r| - |p.inlineData.value.data.value|..] == p.inlineData.value.data.value
  {
    var d := p.inlineData.value;
    var mime := if d.mimeType.Some? && d.mimeType.value != "" then d.mimeType.value else DefaultMime;
    "data:" + mime + Base64Marker + d.data.value
  }

  /** The image of the first part that carries non-empty inline data. */
  function FirstImage(parts: seq<Part>): (r: Option<string>)
    ensures r.None? <==> forall i | 0 <= i < |parts| :: !HasImage(parts[i])
    ensures r.Some? ==> exists i | 0 <= i < |parts| ::
      HasImage(parts[i]) && r.value == ImageUrl(parts[i])
      && forall j | 0 <= j < i :: !HasImage(parts[j])
    decreases |parts|
  {
    if |parts| == 0 then None
    else if HasImage(parts[0]) then Some(ImageUrl(parts[0]))
    else
      var r := FirstImage(parts[1..]);
      assert forall i | 1 <= i < |parts| :: parts[i] == parts[1..][i - 1];
      r
  }

  /** The edited image, from the first candidate's parts if present. */
  function EditedImage(parts: Option<seq<Part>>): (r: Option<string>)
    ensures parts.None? ==> r.None?
    ensures parts.Some? ==> r == FirstImage(parts.value)
  {
    if parts.Some? && |parts.value| > 0 then FirstImage(parts.value) else None
  }

  /** A returned image with a valid mime type reads back into its parts. */
  lemma ReturnedImageParses(p: Part)
    requires HasImage(p)
    requires p.inlineData.value.mimeType.None? || p.inlineData.value.mimeType.value == ""
      || IsImageMime(p.inlineData.value.mimeType.value)
    ensures MatchDataUrl(ImageUrl(p)).Some?
    ensures MatchDataUrl(ImageUrl(p)).value.payload == p.inlineData.value.data.value
  {
    var d := p.inlineData.value;
    var mime := if d.mimeType.Some? && d.mimeType.value != "" then d.mimeType.value else DefaultMime;
    assert DefaultMime[..6] == "image/";
    assert DefaultMime[6..] == "png";
    DataUrlRoundTrip(mime, d.data.value);
  }

  /** The request of `editImageWithGemini`. */
  datatype EditRequest = EditRequest(model: string, image: DataUrl, instruction: string)

  const MissingKeyMessage: string := "API Key not found in environment variables"

  /** Builds the request; a missing or empty API key fails before any request. */
  function BuildEditRequest(apiKey: Option<string>, base64Image: string, prompt: string)
    : (r: Result<EditRequest, string>)
    ensures apiKey.None? || apiKey.value == "" <==> r == Failure(MissingKeyMessage)
    ensures r.Success? ==> r.value.image == DataUrl(MimeTypeOf(base64Image), CleanBase64(base64Image))
    ensures r.Success? ==> r.value.model == "gemini-2.5-flash-image"
  {
    if apiKey.None? || apiKey.value == "" then Failure(MissingKeyMessage)
    else Success(EditRequest(
      "gemini-2.5-flash-image",
      DataUrl(MimeTypeOf(base64Image), CleanBase64(base64Image)),
      "Edit this image: " + prompt + ". Return only the edited image."))
  }

  /** An uploaded data URL is sent with its own mime type and bare payload. */
  lemma UploadSentAsIs(key: string, mime: string, data: string, prompt: string)
    requires key != "" && IsImageMime(mime)
    ensures BuildEditRequest(Some(key), "data:" + mime + Base64Marker + data, prompt).Success?
    ensures BuildEditRequest(Some(key), "data:" + mime + Base64Marker + data, prompt).value.image
      == DataUrl(mime, data)
  {
    DataUrlRoundTrip(mime, data);
  }
}
