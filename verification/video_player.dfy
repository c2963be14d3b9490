/** The video player's chrome: UI flags, playback status and volume,
    reconciled against events from the media element and the user's
    gestures. Every handler is a step function from the old `Player` record
    to the new one together with the commands it sends to the media script
    (play, pause, seek, ...), which stand for the calls the component makes
    across the script boundary. The 3-second auto-hide delay is split in two:
    `ProgressiveDelay` starts it and emits `StartDelay(token)`, and
    `DelayExpired(token)` is the moment it ends. Fresh tokens come from a
    counter (`issued`) in place of random identifiers. */
module VideoPlayer {
  import opened Common

  /** Playback status shown in the info panel (the source spells the stopped
      state `Stoped`). */
  datatype Status = Loading | Playing | Paused | Stopped | Buffering | Unknown

  datatype BarStyle = Flat | Circle

  /** Volume in tenths: 0 is silent, 10 is full volume (1.0). */
  type Tenths = v: int | 0 <= v <= 10

  /** What the component knows about the media element. */
  datatype Media = Media(
    isVideoPlaying: bool,
    status: Status,
    currentTime: real,
    duration: Option<real>,  // the loaded video's duration; None until its info is known
    loop: bool,
    volume: Tenths,
    isMuted: bool,
    playbackSpeed: real)

  /** What the user is doing with the chrome. */
  datatype Gesture = Gesture(
    isUserInteracting: bool,
    isUserChangingProgress: bool,
    isSeeking: bool,
    showSeekingInfo: bool,
    isEmptyTouched: bool,
    forceHideControls: bool,
    isFullScreen: bool)

  /** The settings side bar and its three sub-panels. */
  datatype Menu = Menu(
    showSideBar: bool,
    showSideBarInfo: bool,
    showSideBarPlaybackSpeed: bool,
    showSideBarLoop: bool)

  /** The parts of the chrome `Repaint` restyles. */
  datatype View = View(progressBarStyle: BarStyle, doShowVolumeControls: bool)

  /** Auto-hide delay bookkeeping. */
  datatype Timer = Timer(
    latestId: nat,          // token of the most recently started delay; 0 before any
    issued: nat,            // number of tokens handed out so far
    wheelResume: set<nat>)  // delays a suspended mouse-wheel handler waits on

  datatype Player = Player(media: Media, gesture: Gesture, menu: Menu, view: View, timer: Timer)

  /** Calls into the media script. */
  datatype Command =
    | Play
    | Pause
    | Stop
    | Seek(time: real)           // changeCurrentTime
    | SetVolume(volume: Tenths)  // changeVolume
    | SetMuted(muted: bool)      // muteVolume
    | SetSpeed(speed: real)      // setVideoPlaybackSpeed
    | RequestFullScreen          // enterFullScreen
    | LeaveFullScreen            // exitFullScreen
    | FetchVideoInfo             // getVideoInfo
    | StartDelay(token: nat)     // the 3-second wait of ProgressiveDelay begins

  /** A handler's new state and the commands it issued, in order. */
  datatype Outcome = Outcome(state: Player, commands: seq<Command>)

  /** Events the media element reports. `OnLoadedMetadata` carries the
      duration the info request finally returns. */
  datatype MediaEvent =
    | OnLoadedMetadata(duration: real)
    | OnTimeUpdate(time: real)
    | OnWaiting
    | OnPlaying
    | OnPlay
    | OnPause
    | OnOther

  /** A freshly created player with its `Loop` and `Volume` parameters. */
  function Initial(loop: bool, volume: Tenths): (s: Player)
    ensures Painted(s) && !HideControls(s) && TokensIssued(s.timer)
    ensures s.media.loop == loop && s.media.volume == volume && s.media.duration.None? && !s.media.isVideoPlaying
  {
    Player(Media(false, Loading, 0.0, None, loop, volume, false, 1.0),
           Gesture(false, false, false, false, false, false, false),
           Menu(false, false, false, false),
           View(Circle, false),
           Timer(0, 0, {}))
  }

  // ---------------------------------------------------------------------
  // Hiding the controls

  /** Controls hide while the video plays and nobody is using them. */
  predicate HideControls(s: Player) {
    s.media.isVideoPlaying && !s.gesture.isUserInteracting && !s.gesture.isUserChangingProgress && !s.menu.showSideBar
  }

  /** The view agrees with `HideControls`: flat progress bar exactly when
      hidden, and no volume slider while hidden. */
  predicate Painted(s: Player) {
    (s.view.progressBarStyle == Flat <==> HideControls(s)) && (HideControls(s) ==> !s.view.doShowVolumeControls)
  }

  /** `Repaint`: restyle the progress bar and close the volume slider when
      the controls hide; only the view changes. */
  function Repaint(s: Player): (r: Player)
    ensures Painted(r)
    ensures r.media == s.media && r.gesture == s.gesture && r.menu == s.menu && r.timer == s.timer
    ensures r.view.doShowVolumeControls == (s.view.doShowVolumeControls && !HideControls(s))
  {
    var hidden := HideControls(s);
    s.(view := View(if hidden then Flat else Circle, s.view.doShowVolumeControls && !hidden))
  }

  // ---------------------------------------------------------------------
  // The auto-hide delay

  /** Every token handed out so far, the live one and those a wheel handler
      waits on included, is at most `issued`. */
  predicate TokensIssued(t: Timer) {
    t.latestId <= t.issued && forall k :: k in t.wheelResume ==> k <= t.issued
  }

  /** `ProgressiveDelay`, up to its wait: mark the user as interacting,
      repaint, and start a delay under a token no earlier delay holds. */
  function ProgressiveDelay(s: Player): (o: Outcome)
    ensures o.state.gesture.isUserInteracting && !HideControls(o.state) && Painted(o.state)
    ensures o.state.timer.latestId > s.timer.issued && o.state.timer.issued == o.state.timer.latestId
    ensures o.state.timer.wheelResume == s.timer.wheelResume
    ensures o.commands == [StartDelay(o.state.timer.latestId)]
    ensures o.state.media == s.media && o.state.menu == s.menu
    ensures o.state.gesture == s.gesture.(isUserInteracting := true)
  {
    var token := s.timer.issued + 1;
    var r := Repaint(s.(gesture := s.gesture.(isUserInteracting := true)));
    Outcome(r.(timer := r.timer.(latestId := token, issued := token)), [StartDelay(token)])
  }

  /** The wait of the delay started under `token` is over. Only the most
      recent delay clears the interaction mark and repaints; a superseded one
      does nothing. Then, when a mouse-wheel handler was suspended on this
      delay, it resumes and starts its own closing delay. */
  function DelayExpired(s: Player, token: nat): (o: Outcome)
    ensures token != s.timer.latestId && token !in s.timer.wheelResume ==> o == Outcome(s, [])
    ensures token == s.timer.latestId && token !in s.timer.wheelResume ==>
      && o.commands == []
      && !o.state.gesture.isUserInteracting && Painted(o.state)
      && o.state.media == s.media && o.state.menu == s.menu && o.state.timer == s.timer
      && o.state.gesture == s.gesture.(isUserInteracting := false)
    ensures token in s.timer.wheelResume ==>
      && o.state.timer.wheelResume == s.timer.wheelResume - {token}
      && o.state.gesture.isUserInteracting
      && o.commands == [StartDelay(o.state.timer.latestId)] && o.state.timer.latestId > s.timer.issued
  {
    var s1 := if token == s.timer.latestId then Repaint(s.(gesture := s.gesture.(isUserInteracting := false))) else s;
    if token in s.timer.wheelResume then
      ProgressiveDelay(s1.(timer := s1.timer.(wheelResume := s1.timer.wheelResume - {token})))
    else Outcome(s1, [])
  }

  // ---------------------------------------------------------------------
  // Playback commands

  /** `StopVideo`: rewind to zero, send stop, repaint. */
  function StopVideo(s: Player): (o: Outcome)
    ensures o.state.media == s.media.(currentTime := 0.0) && o.commands == [Stop]
    ensures o.state.gesture == s.gesture && o.state.menu == s.menu && o.state.timer == s.timer
  {
    Outcome(Repaint(s.(media := s.media.(currentTime := 0.0))), [Stop])
  }

  /** `PlayVideo`: fetch the video's info first when none is known yet;
      `fetched` is what the script answers. */
  function PlayVideo(s: Player, fetched: Option<real>): (o: Outcome)
    ensures o.commands == if s.media.duration.None? then [FetchVideoInfo, Play] else [Play]
    ensures s.media.duration.Some? ==> o.state == s
    ensures s.media.duration.None? ==> o.state == s.(media := s.media.(duration := fetched))
  {
    if s.media.duration.None? then Outcome(s.(media := s.media.(duration := fetched)), [FetchVideoInfo, Play])
    else Outcome(s, [Play])
  }

  function PauseVideo(s: Player): (o: Outcome)
    ensures o.state == s && o.commands == [Pause]
  {
    Outcome(s, [Pause])
  }

  // ---------------------------------------------------------------------
  // Media events

  /** A time update that is taken reads the duration, which must be known. */
  predicate CanHandle(s: Player, event: MediaEvent) {
    event.OnTimeUpdate? && !s.gesture.isUserChangingProgress ==> s.media.duration.Some?
  }

  /** A time update: ignored while the user drags the progress bar;
      otherwise the time is taken, and reaching the end stops the video and,
      when looping, plays it again. */
  function TimeUpdate(s: Player, time: real): (o: Outcome)
    requires !s.gesture.isUserChangingProgress ==> s.media.duration.Some?
    ensures o.state.media.status == s.media.status && o.state.media.isVideoPlaying == s.media.isVideoPlaying
    ensures o.state.media.duration == s.media.duration && o.state.media.loop == s.media.loop
    ensures o.state.gesture == s.gesture && o.state.menu == s.menu && o.state.timer == s.timer
    ensures s.gesture.isUserChangingProgress ==> o == Outcome(s, [])
    ensures !s.gesture.isUserChangingProgress && time != s.media.duration.value ==>
      o == Outcome(s.(media := s.media.(currentTime := time)), [])
    ensures !s.gesture.isUserChangingProgress && time == s.media.duration.value ==>
      o.state.media.currentTime == 0.0 && o.commands == (if s.media.loop then [Stop, Play] else [Stop])
  {
    if s.gesture.isUserChangingProgress then Outcome(s, [])
    else
      var s1 := s.(media := s.media.(currentTime := time));
      if s1.media.currentTime == s1.media.duration.value then
        var stop := StopVideo(s1);
        if s1.media.loop then
          var play := PlayVideo(stop.state, None);
          Outcome(play.state, stop.commands + play.commands)
        else stop
      else Outcome(s1, [])
  }

  /** The status transition table for every event but a time update:
      loaded metadata stops, waiting buffers, play and playing play, a pause
      at time zero stops and any other pause pauses; other events keep the
      status. */
  function NextStatus(status: Status, event: MediaEvent, currentTime: real): (r: Status)
    ensures event.OnLoadedMetadata? ==> r == Stopped
    ensures event.OnWaiting? ==> r == Buffering
    ensures event.OnPlaying? || event.OnPlay? ==> r == Playing
    ensures event.OnPause? ==> (r == Stopped <==> currentTime == 0.0) && r in {Stopped, Paused}
    ensures event.OnTimeUpdate? || event.OnOther? ==> r == status
  {
    match event
    case OnLoadedMetadata(_) => Stopped
    case OnWaiting => Buffering
    case OnPlaying => Playing
    case OnPlay => Playing
    case OnPause => if currentTime == 0.0 then Stopped else Paused
    case _ => status
  }

  /** `OnVideoChange` (the metadata polling loop left out): take the playing
      flag from the event, repaint, then apply the event's transition. */
  function OnVideoChange(s: Player, event: MediaEvent, paused: bool): (o: Outcome)
    requires CanHandle(s, event)
    ensures o.state.media.isVideoPlaying == !paused
    ensures o.state.media.status == NextStatus(s.media.status, event, s.media.currentTime)
    ensures event.OnLoadedMetadata? ==> o.state.media.duration == Some(event.duration) && o.commands == [FetchVideoInfo]
    ensures !event.OnTimeUpdate? ==> o.state.media.currentTime == s.media.currentTime
    ensures !event.OnTimeUpdate? && !event.OnLoadedMetadata? ==> o.commands == []
    ensures !event.OnLoadedMetadata? ==> o.state.media.duration == s.media.duration
    ensures o.state.gesture == s.gesture && o.state.menu == s.menu && o.state.timer == s.timer
  {
    var s1 := Repaint(s.(media := s.media.(isVideoPlaying := !paused)));
    if event.OnTimeUpdate? then TimeUpdate(s1, event.time)
    else if event.OnLoadedMetadata? then
      Outcome(s1.(media := s1.media.(duration := Some(event.duration), status := Stopped)), [FetchVideoInfo])
    else Outcome(s1.(media := s1.media.(status := NextStatus(s1.media.status, event, s1.media.currentTime))), [])
  }

  // ---------------------------------------------------------------------
  // The progress bar

  /** `OnProgressMouseDown` and `OnProgressTouchStart`. */
  function OnProgressPress(s: Player): (o: Outcome)
    ensures o.state.gesture.isUserChangingProgress && o.state.gesture.isUserInteracting && !HideControls(o.state)
    ensures o.commands == [StartDelay(o.state.timer.latestId)]
  {
    ProgressiveDelay(s.(gesture := s.gesture.(isUserChangingProgress := true)))
  }

  /** A seek whose distance from the previous value is under one second. */
  predicate WithinDeadBand(newValue: real, previous: Option<real>) {
    previous.Some? && -1.0 < newValue - previous.value < 1.0
  }

  /** `OnProgressChanged`: the seek ends; a move inside the dead band is
      dropped, anything else is committed, releases the progress bar, stops
      the video when the (not yet updated) current time is at the end, and
      restarts the auto-hide delay. */
  function OnProgressChanged(s: Player, newValue: real, previous: Option<real>): (o: Outcome)
    requires !WithinDeadBand(newValue, previous) ==> s.media.duration.Some?
    ensures !o.state.gesture.isSeeking && !o.state.gesture.showSeekingInfo
    ensures WithinDeadBand(newValue, previous) ==> o.commands == []
    ensures WithinDeadBand(newValue, previous) ==>
      o.state.gesture.isUserChangingProgress == s.gesture.isUserChangingProgress && o.state.media == s.media
    ensures !WithinDeadBand(newValue, previous) ==> |o.commands| >= 2 && o.commands[0] == Seek(newValue)
    ensures !WithinDeadBand(newValue, previous) ==> !o.state.gesture.isUserChangingProgress
    ensures (Stop in o.commands) <==> !WithinDeadBand(newValue, previous) && s.media.currentTime == s.media.duration.value
  {
    var s1 := Repaint(s.(gesture := s.gesture.(isSeeking := false, showSeekingInfo := false)));
    if WithinDeadBand(newValue, previous) then Outcome(s1, [])
    else
      var s2 := s1.(gesture := s1.gesture.(isUserChangingProgress := false));
      var stop := if s2.media.currentTime == s2.media.duration.value then StopVideo(s2) else Outcome(s2, []);
      var delay := ProgressiveDelay(stop.state);
      Outcome(delay.state, [Seek(newValue)] + stop.commands + delay.commands)
  }

  /** `OnProgressMouseOut`: hide the seek preview unless a seek is under way. */
  function OnProgressMouseOut(s: Player): (r: Player)
    ensures s.gesture.isSeeking ==> r == s
    ensures !s.gesture.isSeeking ==> !r.gesture.showSeekingInfo && Painted(r) && r.media == s.media
  {
    if s.gesture.isSeeking then s else Repaint(s.(gesture := s.gesture.(showSeekingInfo := false)))
  }

  // ---------------------------------------------------------------------
  // Volume

  /** One notch of the wheel: up adds a tenth up to full volume, down takes
      a tenth off down to silence. */
  function WheelStep(volume: Tenths, up: bool): (r: Tenths)
    ensures up ==> volume <= r <= volume + 1
    ensures !up ==> volume - 1 <= r <= volume
    ensures r == volume <==> (up && volume == 10) || (!up && volume == 0)
  {
    if up then (if volume <= 9 then volume + 1 else 10)
    else (if volume >= 1 then volume - 1 else 0)
  }

  /** `OnVolumeChanging`: set and send the new volume, restart the delay. */
  function OnVolumeChanging(s: Player, volume: Tenths): (o: Outcome)
    ensures o.state.media == s.media.(volume := volume)
    ensures o.commands == [SetVolume(volume), StartDelay(o.state.timer.latestId)]
    ensures o.state.gesture.isUserInteracting && o.state.timer.latestId > s.timer.issued
  {
    var delay := ProgressiveDelay(s.(media := s.media.(volume := volume)));
    Outcome(delay.state, [SetVolume(volume)] + delay.commands)
  }

  /** `OnMouseWheel`: scrolling up (negative delta) raises the volume and
      down lowers it, but only while the volume slider is shown; that change
      waits out its own delay, and only then does the handler resume and
      start its closing delay. Without the slider the closing delay starts
      at once. */
  function OnMouseWheel(s: Player, deltaY: real): (o: Outcome)
    ensures s.view.doShowVolumeControls ==> o.state.media == s.media.(volume := WheelStep(s.media.volume, deltaY < 0.0))
    ensures s.view.doShowVolumeControls ==>
      && o.commands == [SetVolume(o.state.media.volume), StartDelay(o.state.timer.latestId)]
      && o.state.timer.wheelResume == s.timer.wheelResume + {o.state.timer.latestId}
    ensures !s.view.doShowVolumeControls ==>
      && o.state.media == s.media && o.commands == [StartDelay(o.state.timer.latestId)]
      && o.state.timer.wheelResume == s.timer.wheelResume
    ensures o.state.gesture.isUserInteracting
    ensures o.state.timer.latestId == o.state.timer.issued > s.timer.issued
  {
    if s.view.doShowVolumeControls then
      var change := OnVolumeChanging(s, WheelStep(s.media.volume, deltaY < 0.0));
      var t := change.state.timer;
      Outcome(change.state.(timer := t.(wheelResume := t.wheelResume + {t.latestId})), change.commands)
    else ProgressiveDelay(s)
  }

  /** `OnVolumeChanged`: the slider closes; releasing it at zero mutes and
      resets the volume to full, without telling the script. */
  function OnVolumeChanged(s: Player, volume: Tenths): (r: Player)
    ensures !r.view.doShowVolumeControls
    ensures volume == 0 ==> r.media == s.media.(isMuted := true, volume := 10)
    ensures volume != 0 ==> r.media == s.media
    ensures r.gesture == s.gesture && r.menu == s.menu && r.timer == s.timer
  {
    var s1 := s.(view := s.view.(doShowVolumeControls := false));
    if volume == 0 then s1.(media := s1.media.(isMuted := true, volume := 10)) else s1
  }

  /** `MuteVolume`: mute, close the slider, tell the script. */
  function MuteVolume(s: Player): (o: Outcome)
    ensures o.state.media == s.media.(isMuted := true) && !o.state.view.doShowVolumeControls
    ensures o.commands == [SetMuted(true)]
  {
    Outcome(s.(media := s.media.(isMuted := true), view := s.view.(doShowVolumeControls := false)), [SetMuted(true)])
  }

  /** The volume button unmutes a muted player, otherwise toggles the slider. */
  function OnVolumeButtonClick(s: Player): (o: Outcome)
    ensures s.media.isMuted ==> o.state == s.(media := s.media.(isMuted := false)) && o.commands == [SetMuted(false)]
    ensures !s.media.isMuted ==>
      o.state.view.doShowVolumeControls == !s.view.doShowVolumeControls && o.state.media == s.media && o.commands == []
  {
    if s.media.isMuted then Outcome(s.(media := s.media.(isMuted := false)), [SetMuted(false)])
    else Outcome(s.(view := s.view.(doShowVolumeControls := !s.view.doShowVolumeControls)), [])
  }

  // ---------------------------------------------------------------------
  // Settings menu

  /** The side bar shows its main menu when no sub-panel is open. */
  predicate ShowSideBarMenu(m: Menu) {
    !m.showSideBarInfo && !m.showSideBarPlaybackSpeed && !m.showSideBarLoop
  }

  /** `ResetSettingsMenu`: close every sub-panel, back to the main menu;
      whether the side bar is open does not change. */
  function ResetSettingsMenu(m: Menu): (r: Menu)
    ensures ShowSideBarMenu(r) && r.showSideBar == m.showSideBar
  {
    m.(showSideBarInfo := false, showSideBarPlaybackSpeed := false, showSideBarLoop := false)
  }

  /** The "more" button opens or closes the side bar on its main menu. */
  function MoreButtonInfo(m: Menu): (r: Menu)
    ensures r.showSideBar == !m.showSideBar && ShowSideBarMenu(r)
  {
    ResetSettingsMenu(m).(showSideBar := !m.showSideBar)
  }

  function ShowVideoInfo(m: Menu): (r: Menu)
    ensures r.showSideBarInfo && !ShowSideBarMenu(r)
  {
    m.(showSideBarInfo := true)
  }

  function ShowVideoPlaybackSpeedOptions(m: Menu): (r: Menu)
    ensures r.showSideBarPlaybackSpeed && !ShowSideBarMenu(r)
  {
    m.(showSideBarPlaybackSpeed := true)
  }

  function ShowVideoLoop(m: Menu): (r: Menu)
    ensures r.showSideBarLoop && !ShowSideBarMenu(r)
  {
    m.(showSideBarLoop := true)
  }

  /** `ChangeLoop`: flip looping and close the loop panel. */
  function ChangeLoop(s: Player): (r: Player)
    ensures r.media == s.media.(loop := !s.media.loop)
    ensures r.menu == s.menu.(showSideBarLoop := false)
  {
    s.(media := s.media.(loop := !s.media.loop), menu := s.menu.(showSideBarLoop := false))
  }

  /** `ChangePlaybackSpeed`: set and send the speed, close the speed panel. */
  function ChangePlaybackSpeed(s: Player, speed: real): (o: Outcome)
    ensures o.state.media == s.media.(playbackSpeed := speed)
    ensures o.state.menu == s.menu.(showSideBarPlaybackSpeed := false)
    ensures o.commands == [SetSpeed(speed)]
  {
    Outcome(s.(media := s.media.(playbackSpeed := speed), menu := s.menu.(showSideBarPlaybackSpeed := false)),
            [SetSpeed(speed)])
  }

  /** A player with its menu replaced by the result of a menu method. */
  function WithMenu(s: Player, m: Menu): (r: Player)
    ensures r.menu == m && r.media == s.media && r.gesture == s.gesture && r.timer == s.timer
  {
    s.(menu := m)
  }

  // ---------------------------------------------------------------------
  // Clicks and touches on the video area

  /** `OnEmptyTouch`: remember the touch; a touch on a playing video whose
      controls show drops the interaction mark and forces them hidden. */
  function OnEmptyTouch(s: Player): (r: Player)
    ensures r.gesture.isEmptyTouched && r.media == s.media && r.menu == s.menu
    ensures s.media.isVideoPlaying && !HideControls(s) ==>
      r.gesture == s.gesture.(isEmptyTouched := true, forceHideControls := true, isUserInteracting := false) && Painted(r)
    ensures !(s.media.isVideoPlaying && !HideControls(s)) ==> r == s.(gesture := s.gesture.(isEmptyTouched := true))
    ensures s.media.isVideoPlaying && !s.gesture.isUserChangingProgress && !s.menu.showSideBar ==> HideControls(r)
  {
    var s1 := s.(gesture := s.gesture.(isEmptyTouched := true));
    if s.media.isVideoPlaying && !HideControls(s) then
      Repaint(s1.(gesture := s1.gesture.(forceHideControls := true, isUserInteracting := false)))
    else s1
  }

  /** `OnEmptyClick`: with the side bar open, close it (from the main menu)
      or go back to the main menu (from a sub-panel); after a touch, swallow
      the click; otherwise toggle playback. `fetched` is the info the script
      answers if play has to fetch it. */
  function OnEmptyClick(s: Player, fetched: Option<real>): (o: Outcome)
    ensures s.menu.showSideBar ==> o.commands == []
    ensures s.menu.showSideBar && ShowSideBarMenu(s.menu) ==> o.state == s.(menu := s.menu.(showSideBar := false))
    ensures s.menu.showSideBar && !ShowSideBarMenu(s.menu) ==>
      o.state == s.(menu := ResetSettingsMenu(s.menu)) && o.state.menu.showSideBar
    ensures !s.menu.showSideBar && s.gesture.isEmptyTouched ==>
      o == Outcome(s.(gesture := s.gesture.(isEmptyTouched := false)), [])
    ensures !s.menu.showSideBar && !s.gesture.isEmptyTouched ==>
      && (Pause in o.commands <==> s.media.isVideoPlaying)
      && (Play in o.commands <==> !s.media.isVideoPlaying)
  {
    if s.menu.showSideBar then
      Outcome(s.(menu := if ShowSideBarMenu(s.menu) then s.menu.(showSideBar := false) else ResetSettingsMenu(s.menu)), [])
    else if s.gesture.isEmptyTouched then Outcome(s.(gesture := s.gesture.(isEmptyTouched := false)), [])
    else if s.media.isVideoPlaying then PauseVideo(s)
    else PlayVideo(s, fetched)
  }

  /** `OnComponentClick`: the click that follows a hiding touch is swallowed;
      any other restarts the auto-hide delay. */
  function OnComponentClick(s: Player): (o: Outcome)
    ensures s.gesture.forceHideControls ==> o == Outcome(s.(gesture := s.gesture.(forceHideControls := false)), [])
    ensures !s.gesture.forceHideControls ==> o.state.gesture.isUserInteracting && o.commands == [StartDelay(o.state.timer.latestId)]
  {
    if s.gesture.forceHideControls then Outcome(s.(gesture := s.gesture.(forceHideControls := false)), [])
    else ProgressiveDelay(s)
  }

  /** `MainMouseMove`: moving the mouse restarts the delay unless a touch
      forced the controls hidden. */
  function MainMouseMove(s: Player): (o: Outcome)
    ensures s.gesture.forceHideControls ==> o == Outcome(s, [])
    ensures !s.gesture.forceHideControls ==> o.state.gesture.isUserInteracting && o.commands == [StartDelay(o.state.timer.latestId)]
  {
    if s.gesture.forceHideControls then Outcome(s, []) else ProgressiveDelay(s)
  }

  /** `OnFullScreenChange`: the browser entered or left full screen. */
  function OnFullScreenChange(s: Player): (r: Player)
    ensures r.gesture == s.gesture.(isFullScreen := !s.gesture.isFullScreen) && Painted(r) && r.media == s.media
  {
    Repaint(s.(gesture := s.gesture.(isFullScreen := !s.gesture.isFullScreen)))
  }

  // ---------------------------------------------------------------------
  // All inputs

  /** Everything that can happen to a player: a media event, a user
      gesture, a public method call, or the end of an auto-hide wait. */
  datatype Input =
    | VideoChange(event: MediaEvent, paused: bool)
    | ProgressPress
    | ProgressChanged(newValue: real, previous: Option<real>)
    | ProgressMouseOut
    | DelayEnds(token: nat)
    | MouseWheel(deltaY: real)
    | VolumeChanging(volume: Tenths)
    | VolumeChanged(volume: Tenths)
    | VolumeButtonClick
    | MuteCall
    | MoreButton
    | ShowInfo
    | ShowSpeedOptions
    | ShowLoop
    | LoopToggle
    | SpeedChange(speed: real)
    | EmptyTouch
    | EmptyClick(fetched: Option<real>)
    | ComponentClick
    | MouseMove
    | FullScreenChange
    | EnterFullScreenCall
    | ExitFullScreenCall
    | PlayCall(fetched: Option<real>)
    | PauseCall
    | StopCall

  /** Inputs whose handler reads the duration only when it is known. */
  predicate Enabled(s: Player, input: Input) {
    match input
    case VideoChange(event, _) => CanHandle(s, event)
    case ProgressChanged(newValue, previous) => !WithinDeadBand(newValue, previous) ==> s.media.duration.Some?
    case _ => true
  }

  /** Dispatch one input to its handler. */
  function Step(s: Player, input: Input): (o: Outcome)
    requires Enabled(s, input)
    ensures s.timer.issued <= o.state.timer.issued
  {
    match input
    case VideoChange(event, paused) => OnVideoChange(s, event, paused)
    case ProgressPress => OnProgressPress(s)
    case ProgressChanged(newValue, previous) => OnProgressChanged(s, newValue, previous)
    case ProgressMouseOut => Outcome(OnProgressMouseOut(s), [])
    case DelayEnds(token) => DelayExpired(s, token)
    case MouseWheel(deltaY) => OnMouseWheel(s, deltaY)
    case VolumeChanging(volume) => OnVolumeChanging(s, volume)
    case VolumeChanged(volume) => Outcome(OnVolumeChanged(s, volume), [])
    case VolumeButtonClick => OnVolumeButtonClick(s)
    case MuteCall => MuteVolume(s)
    case MoreButton => Outcome(WithMenu(s, MoreButtonInfo(s.menu)), [])
    case ShowInfo => Outcome(WithMenu(s, ShowVideoInfo(s.menu)), [])
    case ShowSpeedOptions => Outcome(WithMenu(s, ShowVideoPlaybackSpeedOptions(s.menu)), [])
    case ShowLoop => Outcome(WithMenu(s, ShowVideoLoop(s.menu)), [])
    case LoopToggle => Outcome(ChangeLoop(s), [])
    case SpeedChange(speed) => ChangePlaybackSpeed(s, speed)
    case EmptyTouch => Outcome(OnEmptyTouch(s), [])
    case EmptyClick(fetched) => OnEmptyClick(s, fetched)
    case ComponentClick => OnComponentClick(s)
    case MouseMove => MainMouseMove(s)
    case FullScreenChange => Outcome(OnFullScreenChange(s), [])
    case EnterFullScreenCall => Outcome(s, [RequestFullScreen])
    case ExitFullScreenCall => Outcome(s, [LeaveFullScreen])
    case PlayCall(fetched) => PlayVideo(s, fetched)
    case PauseCall => PauseVideo(s)
    case StopCall => StopVideo(s)
  }
}
