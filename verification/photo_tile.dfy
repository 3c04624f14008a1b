/**
 * One photo tile of the gallery: which parent callbacks each user event on
 * the tile triggers, the credit-line link, and the thumbnail it shows.
 */
module PhotoTile {
  import opened Wrappers
  import opened Types
  import opened Uri

  const UtmSource := "sanity-plugin-asset-source-bynder"

  const EnterKey := 13

  /**
   * The source page a credit-line click opens: the transform URL with
   * referral tracking. The encoded tracking constant is the constant itself,
   * so the link is the transform URL followed by the fixed query
   * `?utm_source=sanity-plugin-asset-source-bynder&utm_medium=referral`.
   */
  function CreditLineUrl(photo: BynderPhoto): (url: string)
    ensures url == photo.transformBaseUrl + "?utm_source=" + UtmSource + "&utm_medium=referral"
  {
    UtmSourceUnchanged();
    photo.transformBaseUrl + "?utm_source=" + EncodeUriComponent(UtmSource) + "&utm_medium=referral"
  }

  /** The tracking constant holds only letters and hyphens, so encoding leaves it as it is. */
  lemma UtmSourceUnchanged()
    ensures EncodeUriComponent(UtmSource) == UtmSource
  {
    assert forall i :: 0 <= i < |UtmSource| ==> IsLetterOrHyphen(UtmSource[i]);
    EncodeUnreservedIsIdentity(UtmSource);
  }

  predicate IsLetterOrHyphen(c: char) {
    'a' <= c <= 'z' || c == '-'
  }

  /** What a user does to a tile; `EffectRun` is the tile's effect running with its current `active` flag. */
  datatype TileEvent = Click | KeyDown(keyCode: int) | MouseDown | EffectRun(active: bool) | CreditLineClick

  /**
   * A call the tile makes: to the parent's handlers, or to open the photo's
   * source page, `CreditLineUrl(photo)`, in a new browsing context.
   */
  datatype Callback = ForwardKey(keyCode: int) | SelectPhoto(photo: BynderPhoto) | FocusPhoto(photo: BynderPhoto) | OpenSourcePage(photo: BynderPhoto)

  /** Some call selects a photo. */
  predicate HasSelect(calls: seq<Callback>) {
    exists k :: 0 <= k < |calls| && calls[k].SelectPhoto?
  }

  /** Some call reports focus. */
  predicate HasFocus(calls: seq<Callback>) {
    exists k :: 0 <= k < |calls| && calls[k].FocusPhoto?
  }

  /** The photo a callback is about, if any. */
  function Subject(call: Callback): Option<BynderPhoto> {
    match call
    case SelectPhoto(p) => Some(p)
    case FocusPhoto(p) => Some(p)
    case OpenSourcePage(p) => Some(p)
    case ForwardKey(_) => None
  }

  /**
   * The tile's handlers. A key press is forwarded to the parent exactly
   * once, first, and Enter then selects; no other event forwards a key. A
   * click selects; mouse-down and an active tile report focus; a
   * credit-line click stops propagation, so it only opens the source page.
   * Every event but Enter makes one call, and an inactive tile's effect none.
   */
  function Handle(photo: BynderPhoto, event: TileEvent): (calls: seq<Callback>)
    ensures event.KeyDown? ==> |calls| >= 1 && calls[0] == ForwardKey(event.keyCode)
    ensures HasSelect(calls) <==> event.Click? || event == KeyDown(EnterKey)
    ensures HasFocus(calls) <==> event.MouseDown? || event == EffectRun(true)
    ensures forall k :: 0 <= k < |calls| && Subject(calls[k]).Some? ==> Subject(calls[k]).value == photo
    ensures event.CreditLineClick? ==> calls == [OpenSourcePage(photo)]
    ensures forall k :: 0 <= k < |calls| && calls[k].ForwardKey? ==> k == 0 && event.KeyDown?
    ensures |calls| == (if event == KeyDown(EnterKey) then 2 else if event == EffectRun(false) then 0 else 1)
  {
    match event
    case Click =>
      var calls := [SelectPhoto(photo)];
      assert calls[0].SelectPhoto?;
      calls
    case KeyDown(code) =>
      if code == EnterKey then
        var calls := [ForwardKey(code), SelectPhoto(photo)];
        assert calls[1].SelectPhoto?;
        calls
      else [ForwardKey(code)]
    case MouseDown =>
      var calls := [FocusPhoto(photo)];
      assert calls[0].FocusPhoto?;
      calls
    case EffectRun(active) =>
      if active then
        var calls := [FocusPhoto(photo)];
        assert calls[0].FocusPhoto?;
        calls
      else []
    case CreditLineClick => [OpenSourcePage(photo)]
  }

  /** The image the tile shows: the thumbnail under the configured transformer name, absent when the key is missing. */
  function ThumbnailSrc(photo: BynderPhoto, transformerName: string): (src: Option<string>)
    ensures src.Some? <==> transformerName in photo.thumbnails
    ensures src.Some? ==> src.value == photo.thumbnails[transformerName]
  {
    if transformerName in photo.thumbnails then Some(photo.thumbnails[transformerName]) else None
  }
}
