/**
 * The configuration resolver: getVideoConstraints and getVideoBitrate map the
 * quality selector's value and the frame rate to capture constraints and to
 * the encoder's target bitrate.
 */
module Configuration {
  import opened Wrappers
  import opened Numerals

  /** The tiers the quality selector offers. */
  datatype Tier = P1080 | P720 | P480

  /** The selector value that names a tier: the tier's frame height in decimal, followed by 'p'. */
  function TierName(t: Tier): (name: string)
    ensures name == NatToString(TierDimensions(t).height) + "p"
  {
    match t
    case P1080 => "1080p"
    case P720 => "720p"
    case P480 => "480p"
  }

  /**
   * The `case` labels of both switches: a quality string selects a tier
   * exactly when it is that tier's name; any other string selects none.
   */
  function ParseTier(quality: string): (t: Option<Tier>)
    ensures forall u: Tier {:trigger TierName(u)} :: t == Some(u) <==> quality == TierName(u)
  {
    if quality == "1080p" then Some(P1080)
    else if quality == "720p" then Some(P720)
    else if quality == "480p" then Some(P480)
    else None
  }

  /** The `video` member of the constraints; width and height are absent unless a tier matched. */
  datatype VideoConstraints = VideoConstraints(frameRate: int, width: Option<nat>, height: Option<nat>)

  /** The object passed to getDisplayMedia. */
  datatype Constraints = Constraints(video: VideoConstraints, audio: bool)

  /** The frame size requested for a tier. */
  datatype Dimensions = Dimensions(width: nat, height: nat)

  /**
   * The frame size of a tier: a 16:9 frame whose width is rounded up to a
   * whole pixel (exact for 1080p and 720p; 853.33 becomes 854 for 480p).
   */
  function TierDimensions(t: Tier): (d: Dimensions)
    ensures d.width == (d.height * 16 + 8) / 9
    ensures d.height * 16 <= d.width * 9 < d.height * 16 + 9
  {
    match t
    case P1080 => Dimensions(1920, 1080)
    case P720 => Dimensions(1280, 720)
    case P480 => Dimensions(854, 480)
  }

  function Pixels(d: Dimensions): nat
  {
    d.width * d.height
  }

  /** The bitrate getVideoBitrate returns for an unrecognised quality string. */
  const DefaultBitrate: nat := 5000000

  /**
   * getVideoConstraints: audio is always requested, the frame rate is passed
   * through, and width and height are set together, from the tier's table
   * entry, exactly when the quality string names a tier.
   */
  function GetVideoConstraints(quality: string, frameRate: int): (c: Constraints)
    ensures c.audio
    ensures c.video.frameRate == frameRate
    ensures c.video.width.Some? <==> ParseTier(quality).Some?
    ensures c.video.height.Some? <==> ParseTier(quality).Some?
    ensures forall t: Tier {:trigger TierName(t)} :: quality == TierName(t) ==>
              c.video.width == Some(TierDimensions(t).width) && c.video.height == Some(TierDimensions(t).height)
  {
    var base := VideoConstraints(frameRate, None, None);
    var video :=
      if quality == "1080p" then base.(width := Some(1920), height := Some(1080))
      else if quality == "720p" then base.(width := Some(1280), height := Some(720))
      else if quality == "480p" then base.(width := Some(854), height := Some(480))
      else base;
    Constraints(video, true)
  }

  /**
   * getVideoBitrate: the table's bitrate for a named tier, the default
   * (equal to the 720p rate) for every other string.
   */
  function GetVideoBitrate(quality: string): (bps: nat)
    ensures ParseTier(quality).None? ==> bps == DefaultBitrate
    ensures forall t: Tier {:trigger TierName(t)} :: quality == TierName(t) ==>
              bps == (match t case P1080 => 8000000 case P720 => 5000000 case P480 => 2500000)
  {
    match quality
    case "1080p" => 8000000
    case "720p" => 5000000
    case "480p" => 2500000
    case _ => DefaultBitrate
  }

  /** Every tier name is parsed back to its tier, and no two tiers share a name. */
  lemma TierNameRoundTrip(t: Tier, u: Tier)
    ensures ParseTier(TierName(t)) == Some(t)
    ensures TierName(t) == TierName(u) ==> t == u
  {
    assert ParseTier(TierName(u)) == Some(u);
  }

  /** A tier with more pixels per frame is encoded at a strictly higher bitrate. */
  lemma BitrateFollowsResolution(t: Tier, u: Tier)
    requires Pixels(TierDimensions(t)) < Pixels(TierDimensions(u))
    ensures GetVideoBitrate(TierName(t)) < GetVideoBitrate(TierName(u))
  {
  }

  /**
   * An unrecognised quality string is encoded like 720p but, unlike 720p,
   * requests no frame size at all.
   */
  lemma UnknownTierFallback(quality: string, frameRate: int)
    requires ParseTier(quality).None?
    ensures GetVideoBitrate(quality) == GetVideoBitrate(TierName(P720))
    ensures GetVideoConstraints(quality, frameRate).video == VideoConstraints(frameRate, None, None)
    ensures GetVideoConstraints(TierName(P720), frameRate).video != GetVideoConstraints(quality, frameRate).video
  {
  }
}
