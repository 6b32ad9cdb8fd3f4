/** `VideoPage`: the watch page. The player, the Play/Pause buttons and the
    related-video thumbnails are what the locators found; what the page
    object does to them is returned as a value. */
module VideoPage {
  import opened Base
  import opened Elements

  /** What a play or pause request ended up clicking. */
  datatype Target = Player | PlayButton | PauseButton

  /** `play_video()`: the player when it is found, otherwise the Play button
      when it is clickable. The Python result is `clicked.Some?`. */
  function PlayVideo(player: Option<Element>, playButton: Option<Element>): (clicked: Option<Target>)
    ensures player.Some? ==> clicked == Some(Player)
    ensures player.None? ==> (clicked.Some? <==> playButton.Some?)
    ensures clicked != Some(PauseButton)
  {
    if player.Some? then Some(Player)
    else if playButton.Some? then Some(PlayButton)
    else None
  }

  /** `pause_video()`: the same fallback, to the Pause button. */
  function PauseVideo(player: Option<Element>, pauseButton: Option<Element>): (clicked: Option<Target>)
    ensures player.Some? ==> clicked == Some(Player)
    ensures player.None? ==> (clicked.Some? <==> pauseButton.Some?)
    ensures clicked != Some(PlayButton)
  {
    if player.Some? then Some(Player)
    else if pauseButton.Some? then Some(PauseButton)
    else None
  }

  /** With a player on the page, play and pause do the same thing: click it,
      so neither ever reaches for its button. */
  lemma PlayAndPauseClickThePlayer(player: Element, playButton: Option<Element>, pauseButton: Option<Element>)
    ensures PlayVideo(Some(player), playButton) == PauseVideo(Some(player), pauseButton) == Some(Player)
  {
  }

  /** The player's "paused" attribute is falsy: absent or empty. */
  predicate NotPaused(player: Element) {
    var paused := GetAttribute(player, "paused");
    paused.None? || paused.value == ""
  }

  /** `is_video_playing()`. */
  function IsVideoPlaying(player: Option<Element>): (playing: bool)
    ensures playing <==> player.Some? && NotPaused(player.value)
    ensures player.None? ==> !playing
  {
    match player
    case None => false
    case Some(p) => NotPaused(p)
  }

  /** `is_video_paused()`. */
  function IsVideoPaused(player: Option<Element>): (paused: bool)
    ensures paused <==> !IsVideoPlaying(player)
  {
    !IsVideoPlaying(player)
  }

  /** A page without a player counts as paused; a player whose "paused"
      attribute is set to a non-empty value does too. */
  lemma PausedWithoutPlayer(player: Option<Element>)
    ensures player.None? ==> IsVideoPaused(player)
    ensures player.Some? && "paused" in player.value.attributes && player.value.attributes["paused"] != ""
            ==> IsVideoPaused(player)
  {
  }

  /** `set_volume(volume)`: the volume written to the player by script, or
      `None` when no script runs. The Python result is `written.Some?`. */
  function SetVolume(player: Option<Element>, volume: real): (written: Option<real>)
    ensures written.Some? <==> player.Some? && 0.0 <= volume <= 1.0
    ensures written.Some? ==> written.value == volume
  {
    if player.Some? && 0.0 <= volume <= 1.0 then Some(volume) else None
  }

  /** An out-of-range volume never reaches the player, whatever the page. */
  lemma SetVolumeRejectsOutOfRange(player: Option<Element>, volume: real)
    requires volume < 0.0 || volume > 1.0
    ensures SetVolume(player, volume).None?
  {
  }

  /** The key sent to the player. */
  datatype Key = ArrowRight | ArrowLeft

  /** `skip_forward(seconds)`: one right-arrow press; `seconds` is unused. */
  function SkipForward(player: Option<Element>, seconds: int): (sent: Option<Key>)
    ensures sent.Some? <==> player.Some?
    ensures sent.Some? ==> sent.value == ArrowRight
  {
    if player.Some? then Some(ArrowRight) else None
  }

  /** `skip_backward(seconds)`: one left-arrow press; `seconds` is unused. */
  function SkipBackward(player: Option<Element>, seconds: int): (sent: Option<Key>)
    ensures sent.Some? <==> player.Some?
    ensures sent.Some? ==> sent.value == ArrowLeft
  {
    if player.Some? then Some(ArrowLeft) else None
  }

  /** How far to skip makes no difference to what is sent. */
  lemma SkipIgnoresSeconds(player: Option<Element>, s: int, t: int)
    ensures SkipForward(player, s) == SkipForward(player, t)
    ensures SkipBackward(player, s) == SkipBackward(player, t)
  {
  }

  /** `get_related_videos_count()`: how many related videos were found. */
  function RelatedVideosCount(related: seq<Element>): (n: nat)
    ensures n == |related|
  {
    |related|
  }

  /** `click_related_video(index)`. */
  function ClickRelatedVideo(related: seq<Element>, index: int): (clicked: Option<nat>)
    ensures clicked.Some? <==> 0 <= index < RelatedVideosCount(related)
    ensures clicked.Some? ==> clicked.value == index
  {
    ClickAt(related, index)
  }

  /** The bounded poll of `wait_for_video_to_load`: how many visibility
      checks ran and how many one-second sleeps followed them. */
  datatype Poll = Poll(loaded: bool, checks: nat, sleeps: nat)

  /** `wait_for_video_to_load(timeout)`: up to `timeout` visibility checks,
      where `visible[i]` is the answer of the `i`-th; a sleep follows every
      check that fails. */
  method WaitForVideoToLoad(visible: seq<bool>, timeout: int) returns (p: Poll)
    requires timeout <= |visible|
    ensures p.loaded <==> exists i :: 0 <= i < timeout && visible[i]
    ensures p.checks <= if timeout < 0 then 0 else timeout
    ensures forall j :: 0 <= j < p.checks - 1 ==> !visible[j]
    ensures p.loaded ==> p.checks >= 1 && visible[p.checks - 1] && p.sleeps == p.checks - 1
    ensures !p.loaded ==> p.checks == (if timeout < 0 then 0 else timeout) && p.sleeps == p.checks
  {
    var i := 0;
    while i < timeout
      invariant 0 <= i <= (if timeout < 0 then 0 else timeout)
      invariant forall j :: 0 <= j < i ==> !visible[j]
    {
      if visible[i] {
        return Poll(true, i + 1, i);
      }
      i := i + 1;
    }
    return Poll(false, i, i);
  }
}
