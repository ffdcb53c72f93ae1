/** The clip-bounded player (src/components/CustomVideoPlayer.tsx): a video element
    driven so that it plays one clip, with a progress bar and a clock relative to
    that clip. Times are seconds, as reals. */
module VideoPlayer {
  import opened Types
  import opened NumberText

  // ---------------------------------------------------------------------------
  // Time mapping between the video's own timeline and the clip's

  /** Time since the clip's start; negative before it, past the length after it. */
  function RelativeTime(clip: Clip, now: real): (elapsed: real)
    ensures clip.start + elapsed == now
  {
    now - clip.start
  }

  /** Percentage of the clip played at video time `now`, not clamped to [0, 100]. */
  function Progress(clip: Clip, now: real): (percent: real)
    requires clip.end != clip.start
    ensures percent / 100.0 * (clip.end - clip.start) == RelativeTime(clip, now)
  {
    (now - clip.start) / (clip.end - clip.start) * 100.0
  }

  /** The video time the seek bar sends the element to for a bar value `percent`. */
  function SeekTarget(clip: Clip, percent: real): (target: real)
    ensures RelativeTime(clip, target) * 100.0 == percent * (clip.end - clip.start)
  {
    clip.start + percent / 100.0 * (clip.end - clip.start)
  }

  /** The test the time-update handler uses to stop at the clip's end. */
  predicate ReachedEnd(clip: Clip, now: real): (ended: bool)
    ensures ended <==> RelativeTime(clip, now) >= clip.end - clip.start
  {
    now >= clip.end
  }

  /** Seeking to a bar value and then reporting progress gives that value back. */
  lemma SeekThenProgress(clip: Clip, percent: real)
    requires clip.end != clip.start
    ensures Progress(clip, SeekTarget(clip, percent)) == percent
  {
  }

  /** Seeking to the reported progress returns the video to the same time. */
  lemma ProgressThenSeek(clip: Clip, now: real)
    requires clip.end != clip.start
    ensures SeekTarget(clip, Progress(clip, now)) == now
  {
  }

  /** A bar value in [0, 100] lands inside the clip. */
  lemma SeekStaysInClip(clip: Clip, percent: real)
    requires clip.start < clip.end
    requires 0.0 <= percent <= 100.0
    ensures clip.start <= SeekTarget(clip, percent) <= clip.end
  {
    var len := clip.end - clip.start;
    var f := percent / 100.0;
    assert 0.0 <= f <= 1.0;
    assert 0.0 <= f * len <= 1.0 * len;
    assert SeekTarget(clip, percent) == clip.start + f * len;
  }

  /** Where a quotient by a positive length lies, given where the dividend lies. */
  lemma QuotientBounds(a: real, len: real)
    requires len > 0.0
    ensures a >= len ==> a / len >= 1.0
    ensures 0.0 <= a <= len ==> 0.0 <= a / len <= 1.0
    ensures a < 0.0 ==> a / len < 0.0
  {
    var q := a / len;
    assert a == q * len;
    if q < 1.0 {
      assert q * len < 1.0 * len;
    }
    if q < 0.0 {
      assert q * len < 0.0;
    }
    if q > 1.0 {
      assert q * len > 1.0 * len;
    }
  }

  /** Progress is exactly 100 at the clip's end, at least 100 beyond it, within
      [0, 100] inside the clip and negative before it: nothing is clamped. */
  lemma ProgressAroundClip(clip: Clip, now: real)
    requires clip.start < clip.end
    ensures Progress(clip, clip.end) == 100.0
    ensures now >= clip.end ==> Progress(clip, now) >= 100.0
    ensures clip.start <= now <= clip.end ==> 0.0 <= Progress(clip, now) <= 100.0
    ensures now < clip.start ==> Progress(clip, now) < 0.0
  {
    QuotientBounds(now - clip.start, clip.end - clip.start);
  }

  // ---------------------------------------------------------------------------
  // The clock text, `m:ss`

  function WholeMinutes(seconds: real): (m: nat)
    requires seconds >= 0.0
    ensures m as real * 60.0 <= seconds < m as real * 60.0 + 60.0
  {
    (seconds / 60.0).Floor
  }

  /** `Math.floor(seconds % 60)`; for a non-negative time the remainder is what is
      left after the whole minutes. */
  function WholeSeconds(seconds: real): (s: nat)
    requires seconds >= 0.0
    ensures s < 60
    ensures WholeMinutes(seconds) * 60 + s == seconds.Floor
  {
    var rest := seconds - WholeMinutes(seconds) as real * 60.0;
    var s := rest.Floor;
    assert (WholeMinutes(seconds) * 60 + s) as real <= seconds < (WholeMinutes(seconds) * 60 + s) as real + 1.0;
    s
  }

  function FormatTime(seconds: real): (text: string)
    requires seconds >= 0.0
    ensures |text| >= 4 && text[|text| - 3] == ':'
    ensures IsDigit(text[|text| - 2]) && IsDigit(text[|text| - 1])
  {
    var s := WholeSeconds(seconds);
    DecimalDigits(WholeMinutes(seconds)) + ":" + (if s < 10 then "0" else "") + DecimalDigits(s)
  }

  /** The text is the minutes, a colon and exactly two digits of seconds; reading
      it back gives the whole seconds of the input. */
  lemma FormatTimeReadsBack(seconds: real)
    requires seconds >= 0.0
    ensures var text := FormatTime(seconds);
      var k := |text| - 3;
      && 0 < k
      && text[..k] == DecimalDigits(WholeMinutes(seconds))
      && text[k] == ':'
      && IsDigit(text[k + 1]) && IsDigit(text[k + 2])
      && DecimalValue(text[..k]) == WholeMinutes(seconds)
      && DecimalValue(text[k + 1..]) == WholeSeconds(seconds)
      && DecimalValue(text[..k]) * 60 + DecimalValue(text[k + 1..]) == seconds.Floor
  {
    var m, s := WholeMinutes(seconds), WholeSeconds(seconds);
    var minutes := DecimalDigits(m);
    var secs := (if s < 10 then "0" else "") + DecimalDigits(s);
    var text := FormatTime(seconds);
    assert text == minutes + ":" + secs;
    assert |secs| == 2;
    var k := |text| - 3;
    assert text[..k] == minutes;
    assert text[k + 1..] == secs;
    DecimalRoundTrip(m);
    DecimalRoundTrip(s);
    if s < 10 {
      assert secs[..1] == "0";
      assert DecimalValue(secs) == 10 * DecimalValue("0") + s;
    }
  }

  // ---------------------------------------------------------------------------
  // The video element and the player component

  /** The fields of the HTML video element the player reads and writes. */
  class MediaElement {
    var currentTime: real
    var paused: bool
    var muted: bool

    /** A freshly loaded element: at time 0, paused, with sound. */
    constructor ()
      ensures currentTime == 0.0 && paused && !muted
    {
      currentTime, paused, muted := 0.0, true, false;
    }

    /** A play request; `allowed` is the platform's verdict. A refused request
        leaves the element as it was. */
    method Play(allowed: bool)
      modifies this`paused
      ensures paused == (if allowed then false else old(paused))
    {
      if allowed {
        paused := false;
      }
    }

    method Pause()
      modifies this`paused
      ensures paused
    {
      paused := true;
    }
  }

  class Player {
    const video: MediaElement
    /** The clip prop of the latest render. */
    var clip: Clip
    /** The clip the attached time-update listener was created for, if one is attached. */
    var listener: Option<Clip>
    var progress: real
    var isPlaying: bool
    /** The clock, relative to the clip's start. */
    var currentTime: real
    var isMuted: bool

    /** The attached listener, if any, belongs to the current clip. */
    ghost predicate Valid()
      reads this
    {
      listener == None || listener == Some(clip)
    }

    /** The first render, before the clip effect has run. */
    constructor (video: MediaElement, clip: Clip)
      ensures Valid()
      ensures this.video == video && this.clip == clip && listener == None
      ensures progress == 0.0 && isPlaying && currentTime == 0.0 && !isMuted
    {
      this.video := video;
      this.clip := clip;
      listener := None;
      progress, isPlaying, currentTime, isMuted := 0.0, true, 0.0, false;
    }

    /** The clip effect: a render with `newClip` removes the previous listener, moves
        the video to the clip's start, claims to be playing whether or not the play
        request succeeds, and attaches a listener for `newClip`. */
    method Bind(newClip: Clip, playAllowed: bool)
      requires Valid()
      modifies this`clip, this`listener, this`isPlaying, video`currentTime, video`paused
      ensures Valid()
      ensures clip == newClip && listener == Some(newClip)
      ensures video.currentTime == newClip.start
      ensures video.paused == (if playAllowed then false else old(video.paused))
      ensures isPlaying
    {
      clip := newClip;
      listener := None;
      video.currentTime := newClip.start;
      isPlaying := true;
      video.Play(playAllowed);
      listener := Some(newClip);
    }

    /** The element reports time `now`. Without a listener nothing reacts; with one,
        the clip it was attached for decides whether to stop, and the clock and
        progress follow `now` without clamping. */
    method OnTimeUpdate(now: real)
      requires Valid()
      requires listener.Some? ==> listener.value.end != listener.value.start
      modifies this`currentTime, this`progress, this`isPlaying, video`currentTime, video`paused
      ensures Valid()
      ensures video.currentTime == now
      ensures listener.None? ==>
        && video.paused == old(video.paused) && isPlaying == old(isPlaying)
        && currentTime == old(currentTime) && progress == old(progress)
      ensures listener.Some? ==>
        var c := listener.value;
        && video.paused == (old(video.paused) || ReachedEnd(c, now))
        && isPlaying == (old(isPlaying) && !ReachedEnd(c, now))
        && currentTime == RelativeTime(c, now)
        && progress == Progress(c, now)
    {
      video.currentTime := now;
      if listener.Some? {
        var c := listener.value;
        var current := video.currentTime;
        if current >= c.end {
          video.Pause();
          isPlaying := false;
        }
        currentTime := current - c.start;
        progress := ((current - c.start) / (c.end - c.start)) * 100.0;
      }
    }

    /** The seek bar moved to `percent`. */
    method Seek(percent: real)
      modifies video`currentTime
      ensures video.currentTime == SeekTarget(clip, percent)
    {
      video.currentTime := clip.start + (percent / 100.0) * (clip.end - clip.start);
    }

    method TogglePlayPause(playAllowed: bool)
      modifies this`isPlaying, video`paused
      ensures isPlaying == !old(isPlaying)
      ensures video.paused == (if old(isPlaying) then true
                               else if playAllowed then false
                               else old(video.paused))
    {
      if isPlaying {
        video.Pause();
        isPlaying := false;
      } else {
        video.Play(playAllowed);
        isPlaying := true;
      }
    }

    method ToggleMute()
      modifies this`isMuted, video`muted
      ensures video.muted == !old(video.muted) && isMuted == !old(isMuted)
      ensures old(video.muted == isMuted) ==> video.muted == isMuted
    {
      video.muted := !video.muted;
      isMuted := !isMuted;
    }
  }

  /** A session with a 5 to 15 second clip, played to its end. */
  method IntroSession()
  {
    var video := new MediaElement();
    var intro := Clip("intro-id", "Intro", 5.0, 15.0);
    var player := new Player(video, intro);
    player.Bind(intro, false);
    assert player.isPlaying && video.paused && video.currentTime == 5.0;

    player.TogglePlayPause(true);
    player.TogglePlayPause(true);
    assert player.isPlaying && !video.paused;

    player.OnTimeUpdate(10.0);
    assert player.currentTime == 5.0 && player.progress == 50.0;

    player.Seek(75.0);
    assert video.currentTime == 12.5;
    player.OnTimeUpdate(video.currentTime);
    assert player.progress == 75.0 && !video.paused;

    player.OnTimeUpdate(15.0);
    assert video.paused && !player.isPlaying && player.progress == 100.0;
    assert player.currentTime == 10.0;

    SwitchToFullVideo(player);
  }

  /** After the intro ended, switching to the whole video moves the element to 0
      but leaves the clock and progress of the intro until the next time update. */
  method SwitchToFullVideo(player: Player)
    requires player.Valid()
    requires player.currentTime == 10.0 && player.progress == 100.0
    modifies player, player.video
  {
    var full := Clip(FullClipId, DefaultClipName, 0.0, 120.0);
    player.Bind(full, true);
    assert player.video.currentTime == 0.0 && player.isPlaying;
    assert player.currentTime == 10.0 && player.progress == 100.0;
    player.OnTimeUpdate(0.0);
    assert player.currentTime == 0.0 && player.progress == 0.0;
  }
}
