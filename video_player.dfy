/*
 * The video-lesson player's controls: play/pause, a seek slider over
 * 0..1800 seconds, skip buttons of ten seconds, and a volume slider with a
 * mute toggle. Each handler updates only the fields it names; the frame of
 * each method below says so.
 */
module Player {

  import Clock

  /** The seek slider's maximum, in seconds (thirty minutes). */
  const MaxTime: int := 1800
  /** How far the skip buttons move, in seconds. */
  const SkipSeconds: int := 10
  /** The volume slider's maximum. */
  const MaxVolume: int := 100

  /** Math.min(t + 10, 1800): ten seconds on, but never past the end. */
  function SkipForwardTime(t: int): (r: int)
    ensures r <= MaxTime && r <= t + SkipSeconds
    ensures r == MaxTime || r == t + SkipSeconds
  {
    if t + SkipSeconds < MaxTime then t + SkipSeconds else MaxTime
  }

  /** Math.max(t - 10, 0): ten seconds back, but never before the start. */
  function SkipBackwardTime(t: int): (r: int)
    ensures r >= 0 && r >= t - SkipSeconds
    ensures r == 0 || r == t - SkipSeconds
  {
    if t - SkipSeconds > 0 then t - SkipSeconds else 0
  }

  /** A time the seek slider can show. */
  predicate InSliderRange(t: int) {
    0 <= t <= MaxTime
  }

  /** Both skips keep a time inside the slider's range. */
  lemma SkipsStayInRange(t: int)
    requires InSliderRange(t)
    ensures InSliderRange(SkipForwardTime(t)) && InSliderRange(SkipBackwardTime(t))
  {
  }

  /** Away from the ends, skipping back undoes skipping forward and vice versa. */
  lemma SkipsUndoEachOther(t: int)
    ensures 0 <= t <= MaxTime - SkipSeconds ==> SkipBackwardTime(SkipForwardTime(t)) == t
    ensures SkipSeconds <= t <= MaxTime ==> SkipForwardTime(SkipBackwardTime(t)) == t
  {
  }

  class VideoPlayer {
    var isPlaying: bool
    /** Seconds into the lesson, as the seek slider reports it. */
    var currentTime: int
    var volume: int
    var isMuted: bool

    /** The seek position is on the seek slider and the volume on the volume slider. */
    ghost predicate Valid()
      reads this
    {
      InSliderRange(currentTime) && 0 <= volume <= MaxVolume
    }

    constructor ()
      ensures Valid()
      ensures !isPlaying && currentTime == 0 && volume == MaxVolume && !isMuted
    {
      isPlaying := false;
      currentTime := 0;
      volume := MaxVolume;
      isMuted := false;
    }

    /** togglePlay: flips playing/paused and nothing else. */
    method TogglePlay()
      requires Valid()
      modifies this`isPlaying
      ensures Valid()
      ensures isPlaying == !old(isPlaying)
    {
      isPlaying := !isPlaying;
    }

    /** toggleMute: flips muted and nothing else; the stored volume is kept. */
    method ToggleMute()
      requires Valid()
      modifies this`isMuted
      ensures Valid()
      ensures isMuted == !old(isMuted)
    {
      isMuted := !isMuted;
    }

    /**
     * handleProgressChange: the seek slider's (single) value becomes the
     * current time; the slider only reports values in its own range.
     */
    method HandleProgressChange(value: seq<int>)
      requires Valid() && |value| > 0 && InSliderRange(value[0])
      modifies this`currentTime
      ensures Valid()
      ensures currentTime == value[0]
    {
      currentTime := value[0];
    }

    /**
     * handleVolumeChange: the volume slider's value becomes the volume, and
     * the player is muted exactly when that value is 0. Afterwards the slider
     * shows the value just chosen. The slider only reports values in 0..100.
     */
    method HandleVolumeChange(value: seq<int>)
      requires Valid() && |value| > 0 && 0 <= value[0] <= MaxVolume
      modifies this`volume, this`isMuted
      ensures Valid()
      ensures volume == value[0] && (isMuted <==> value[0] == 0)
      ensures SliderVolume() == value[0]
      ensures MutedIconShown() <==> value[0] == 0
    {
      volume := value[0];
      isMuted := value[0] == 0;
    }

    /** skipForward. */
    method SkipForward()
      requires Valid()
      modifies this`currentTime
      ensures Valid()
      ensures currentTime == SkipForwardTime(old(currentTime))
      ensures old(currentTime) <= currentTime <= MaxTime
    {
      currentTime := if currentTime + SkipSeconds < MaxTime then currentTime + SkipSeconds else MaxTime;
    }

    /** skipBackward. */
    method SkipBackward()
      requires Valid()
      modifies this`currentTime
      ensures Valid()
      ensures currentTime == SkipBackwardTime(old(currentTime))
      ensures 0 <= currentTime <= old(currentTime)
    {
      currentTime := if currentTime - SkipSeconds > 0 then currentTime - SkipSeconds else 0;
    }

    /**
     * The volume slider's position: 0 while muted, the stored volume
     * otherwise. It reads 0 exactly when the muted icon shows.
     */
    function SliderVolume(): (v: int)
      requires Valid()
      reads this
      ensures v == 0 <==> MutedIconShown()
      ensures 0 <= v <= MaxVolume
    {
      if isMuted then 0 else volume
    }

    /** The mute button shows the crossed-out speaker. */
    predicate MutedIconShown()
      reads this
    {
      isMuted || volume == 0
    }

    /** The elapsed-time label under the seek slider; it reads back as the current time. */
    function ElapsedLabel(): (r: string)
      requires Valid()
      reads this
      ensures Clock.ParseTime(r) == Clock.Some(currentTime)
    {
      Clock.FormatTimeRoundTrip(currentTime);
      Clock.FormatTime(currentTime)
    }
  }

  /** Pressing play twice leaves the player as it was. */
  method TogglePlayTwice(p: VideoPlayer)
    requires p.Valid()
    modifies p
    ensures p.isPlaying == old(p.isPlaying) && p.currentTime == old(p.currentTime)
    ensures p.volume == old(p.volume) && p.isMuted == old(p.isMuted)
  {
    p.TogglePlay();
    p.TogglePlay();
  }

  /** Pressing mute twice leaves the player as it was. */
  method ToggleMuteTwice(p: VideoPlayer)
    requires p.Valid()
    modifies p
    ensures p.isPlaying == old(p.isPlaying) && p.currentTime == old(p.currentTime)
    ensures p.volume == old(p.volume) && p.isMuted == old(p.isMuted)
  {
    p.ToggleMute();
    p.ToggleMute();
  }
}
