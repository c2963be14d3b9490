/** Properties of the video player model: how the controls hide, which
    inputs can touch the status, how auto-hide delays supersede each other,
    what the wheel does to the volume, and how the settings menu moves
    between its panels. */
module VideoPlayerProofs {
  import opened Common
  import opened VideoPlayer

  // ---------------------------------------------------------------------
  // Runs of inputs

  /** Feed `inputs` to the player one after another, collecting the
      commands; None when an input reaches a handler that would dereference
      a missing video info. */
  function Run(s: Player, inputs: seq<Input>): Option<Outcome>
    decreases |inputs|
  {
    if |inputs| == 0 then Some(Outcome(s, []))
    else if !Enabled(s, inputs[0]) then None
    else
      var first := Step(s, inputs[0]);
      match Run(first.state, inputs[1..])
      case None => None
      case Some(rest) => Some(Outcome(rest.state, first.commands + rest.commands))
  }

  /** Every delay started in `cmds` has a token in (lo, hi]. */
  predicate DelaysWithin(cmds: seq<Command>, lo: int, hi: int) {
    forall i :: 0 <= i < |cmds| && cmds[i].StartDelay? ==> lo < cmds[i].token <= hi
  }

  /** Delays in `cmds` start under strictly increasing tokens. */
  predicate DelaysIncreasing(cmds: seq<Command>) {
    forall i, j :: 0 <= i < j < |cmds| && cmds[i].StartDelay? && cmds[j].StartDelay? ==> cmds[i].token < cmds[j].token
  }

  /** `o` moves the token counter only forward, and every delay it starts
      gets a fresh token, above all those issued before and increasing. */
  predicate FreshOutcome(s: Player, o: Outcome) {
    && s.timer.issued <= o.state.timer.issued
    && DelaysWithin(o.commands, s.timer.issued, o.state.timer.issued)
    && DelaysIncreasing(o.commands)
  }

  lemma VideoChangeDelaysFresh(s: Player, event: MediaEvent, paused: bool)
    requires CanHandle(s, event)
    ensures FreshOutcome(s, OnVideoChange(s, event, paused))
  {
    var s1 := Repaint(s.(media := s.media.(isVideoPlaying := !paused)));
    assert s1.timer == s.timer;
  }

  lemma ProgressChangedDelaysFresh(s: Player, newValue: real, previous: Option<real>)
    requires !WithinDeadBand(newValue, previous) ==> s.media.duration.Some?
    ensures FreshOutcome(s, OnProgressChanged(s, newValue, previous))
  {
    var o := OnProgressChanged(s, newValue, previous);
    if !WithinDeadBand(newValue, previous) {
      assert o.commands[|o.commands| - 1] == StartDelay(o.state.timer.latestId);
      assert forall i :: 0 <= i < |o.commands| - 1 ==> !o.commands[i].StartDelay?;
    }
  }

  /** Inputs whose handler starts an auto-hide delay. */
  predicate StartsDelay(input: Input) {
    || input.ProgressPress? || input.DelayEnds? || input.MouseWheel?
    || input.VolumeChanging? || input.ComponentClick? || input.MouseMove?
  }

  lemma DelayInputsFresh(s: Player, input: Input)
    requires StartsDelay(input)
    ensures FreshOutcome(s, Step(s, input))
  {
  }

  /** Every other input leaves the timer alone and starts no delay. */
  lemma QuietInputsFresh(s: Player, input: Input)
    requires Enabled(s, input) && !StartsDelay(input) && !input.VideoChange? && !input.ProgressChanged?
    ensures Step(s, input).state.timer == s.timer
    ensures forall c :: c in Step(s, input).commands ==> !c.StartDelay?
  {
  }

  /** One input never reuses a token and never moves the counter back. */
  lemma StepDelaysFresh(s: Player, input: Input)
    requires Enabled(s, input)
    ensures var o := Step(s, input);
            && s.timer.issued <= o.state.timer.issued
            && DelaysWithin(o.commands, s.timer.issued, o.state.timer.issued)
            && DelaysIncreasing(o.commands)
  {
    if input.VideoChange? {
      VideoChangeDelaysFresh(s, input.event, input.paused);
    } else if input.ProgressChanged? {
      ProgressChangedDelaysFresh(s, input.newValue, input.previous);
    } else if StartsDelay(input) {
      DelayInputsFresh(s, input);
    } else {
      QuietInputsFresh(s, input);
    }
  }

  /** Fresh delays in two stretches of commands, the second starting above
      where the first ends, are fresh together. */
  lemma ConcatDelaysFresh(a: seq<Command>, b: seq<Command>, lo: int, mid: int, hi: int)
    requires DelaysWithin(a, lo, mid) && DelaysIncreasing(a)
    requires DelaysWithin(b, mid, hi) && DelaysIncreasing(b)
    requires lo <= mid <= hi
    ensures DelaysWithin(a + b, lo, hi) && DelaysIncreasing(a + b)
  {
    var all := a + b;
    forall i, j | 0 <= i < j < |all| && all[i].StartDelay? && all[j].StartDelay?
      ensures all[i].token < all[j].token
    {
      if j < |a| {
        assert all[i] == a[i] && all[j] == a[j];
      } else if i < |a| {
        assert all[i] == a[i] && all[j] == b[j - |a|];
      } else {
        assert all[i] == b[i - |a|] && all[j] == b[j - |a|];
      }
    }
    forall i | 0 <= i < |all| && all[i].StartDelay?
      ensures lo < all[i].token <= hi
    {
      if i < |a| {
        assert all[i] == a[i];
      } else {
        assert all[i] == b[i - |a|];
      }
    }
  }

  /** Over any run, every delay is started under a fresh token, larger than
      any token handed out before the run, and later delays get larger
      tokens: a token identifies one delay, as a new identifier does. */
  lemma {:induction false} RunDelaysFresh(s: Player, inputs: seq<Input>)
    requires Run(s, inputs).Some?
    ensures var o := Run(s, inputs).value;
            && s.timer.issued <= o.state.timer.issued
            && DelaysWithin(o.commands, s.timer.issued, o.state.timer.issued)
            && DelaysIncreasing(o.commands)
    decreases |inputs|
  {
    if |inputs| > 0 {
      var first := Step(s, inputs[0]);
      StepDelaysFresh(s, inputs[0]);
      RunDelaysFresh(first.state, inputs[1..]);
      var rest := Run(first.state, inputs[1..]).value;
      assert Run(s, inputs).value == Outcome(rest.state, first.commands + rest.commands);
      ConcatDelaysFresh(first.commands, rest.commands, s.timer.issued, first.state.timer.issued, rest.state.timer.issued);
    }
  }

  /** Every input keeps the live token and the ones wheel handlers wait on
      among those handed out. */
  lemma StepKeepsTokensIssued(s: Player, input: Input)
    requires Enabled(s, input) && TokensIssued(s.timer)
    ensures TokensIssued(Step(s, input).state.timer)
  {
    if input.VideoChange? {
      var s1 := Repaint(s.(media := s.media.(isVideoPlaying := !input.paused)));
      assert s1.timer == s.timer;
    } else if input.ProgressChanged? {
    } else if StartsDelay(input) {
      DelayInputsKeepTokens(s, input);
    } else {
      QuietInputsFresh(s, input);
    }
  }

  lemma DelayInputsKeepTokens(s: Player, input: Input)
    requires StartsDelay(input) && TokensIssued(s.timer)
    ensures TokensIssued(Step(s, input).state.timer)
  {
  }

  lemma {:induction false} RunKeepsTokensIssued(s: Player, inputs: seq<Input>)
    requires TokensIssued(s.timer) && Run(s, inputs).Some?
    ensures TokensIssued(Run(s, inputs).value.state.timer)
    decreases |inputs|
  {
    if |inputs| > 0 {
      StepKeepsTokensIssued(s, inputs[0]);
      RunKeepsTokensIssued(Step(s, inputs[0]).state, inputs[1..]);
    }
  }

  /** From a freshly created player, every token the state holds and every
      delay any run starts was handed out by that player, one token per
      delay. */
  lemma FreshPlayerRuns(loop: bool, volume: Tenths, inputs: seq<Input>)
    requires Run(Initial(loop, volume), inputs).Some?
    ensures var o := Run(Initial(loop, volume), inputs).value;
            && TokensIssued(o.state.timer)
            && DelaysWithin(o.commands, 0, o.state.timer.issued)
            && DelaysIncreasing(o.commands)
  {
    RunKeepsTokensIssued(Initial(loop, volume), inputs);
    RunDelaysFresh(Initial(loop, volume), inputs);
  }

  /** A press on the progress bar, a wheel turn, a volume drag, a click or a
      mouse move on the component shows the controls and ends by starting a
      delay, so nothing hides them until a delay ends; a click or move right
      after a touch that forced the controls hidden does neither. */
  lemma InteractionShowsControls(s: Player, input: Input)
    requires input.ProgressPress? || input.MouseWheel? || input.VolumeChanging? || input.ComponentClick? || input.MouseMove?
    ensures var o := Step(s, input);
            (input.ComponentClick? || input.MouseMove?) && s.gesture.forceHideControls ==> o.commands == []
    ensures var o := Step(s, input);
            !((input.ComponentClick? || input.MouseMove?) && s.gesture.forceHideControls) ==>
              && !HideControls(o.state) && Painted(o.state)
              && |o.commands| > 0 && o.commands[|o.commands| - 1] == StartDelay(o.state.timer.latestId)
  {
  }

  /** Only media events move the status; no gesture or method call does. */
  lemma StatusOnlyFromMediaEvents(s: Player, input: Input)
    requires Enabled(s, input) && !input.VideoChange?
    ensures Step(s, input).state.media.status == s.media.status
    ensures Step(s, input).state.media.isVideoPlaying == s.media.isVideoPlaying
  {
    if StartsDelay(input) {
      DelayInputsKeepMedia(s, input);
    } else if !input.ProgressChanged? {
      QuietInputsKeepStatus(s, input);
    }
  }

  lemma DelayInputsKeepMedia(s: Player, input: Input)
    requires StartsDelay(input)
    ensures Step(s, input).state.media.status == s.media.status
    ensures Step(s, input).state.media.isVideoPlaying == s.media.isVideoPlaying
  {
  }

  lemma QuietInputsKeepStatus(s: Player, input: Input)
    requires Enabled(s, input) && !StartsDelay(input) && !input.VideoChange? && !input.ProgressChanged?
    ensures Step(s, input).state.media.status == s.media.status
    ensures Step(s, input).state.media.isVideoPlaying == s.media.isVideoPlaying
  {
  }

  // ---------------------------------------------------------------------
  // Hiding the controls and the auto-hide delay

  /** Repainting twice is repainting once. */
  lemma RepaintIdempotent(s: Player)
    ensures Repaint(Repaint(s)) == Repaint(s)
  {
  }

  /** A second gesture within the wait supersedes the first delay: when the
      first ends nothing happens and the controls stay shown, and only the
      end of the second delay lets them hide. */
  lemma SupersededDelay(s: Player)
    requires TokensIssued(s.timer)
    ensures var first := ProgressiveDelay(s);
            var second := ProgressiveDelay(first.state);
            var firstEnds := DelayExpired(second.state, first.state.timer.latestId);
            && firstEnds == Outcome(second.state, [])
            && !HideControls(firstEnds.state)
            && !DelayExpired(firstEnds.state, second.state.timer.latestId).state.gesture.isUserInteracting
  {
    var first := ProgressiveDelay(s);
    var second := ProgressiveDelay(first.state);
    assert first.state.timer.latestId !in second.state.timer.wheelResume;
    assert second.state.timer.latestId !in second.state.timer.wheelResume;
  }

  /** Once the last delay ends on a playing video that nobody drags and whose
      side bar is closed, the controls hide and the view shows it. */
  lemma LastDelayHides(s: Player)
    requires s.timer.latestId !in s.timer.wheelResume
    requires s.media.isVideoPlaying && !s.gesture.isUserChangingProgress && !s.menu.showSideBar
    ensures var r := DelayExpired(s, s.timer.latestId).state;
            HideControls(r) && r.view.progressBarStyle == Flat && !r.view.doShowVolumeControls
  {
  }

  /** A wheel notch with the slider open keeps the controls up for two
      delays: the end of the first resumes the handler, which starts the
      second, and only the end of that one clears the interaction mark. */
  lemma WheelHoldsControlsForTwoDelays(s: Player, deltaY: real)
    requires TokensIssued(s.timer) && s.view.doShowVolumeControls
    ensures var w := OnMouseWheel(s, deltaY);
            var firstEnds := DelayExpired(w.state, w.state.timer.latestId);
            var secondEnds := DelayExpired(firstEnds.state, firstEnds.state.timer.latestId);
            && firstEnds.state.gesture.isUserInteracting
            && firstEnds.commands == [StartDelay(firstEnds.state.timer.latestId)]
            && firstEnds.state.timer.wheelResume == s.timer.wheelResume
            && !secondEnds.state.gesture.isUserInteracting
            && secondEnds.commands == []
  {
    var w := OnMouseWheel(s, deltaY);
    var t := w.state.timer.latestId;
    assert t !in s.timer.wheelResume;
    assert w.state.timer.wheelResume - {t} == s.timer.wheelResume;
    var firstEnds := DelayExpired(w.state, t);
    assert firstEnds.state.timer.latestId !in firstEnds.state.timer.wheelResume;
  }

  // ---------------------------------------------------------------------
  // Media events

  /** A time update at the end of a looping video stops it, rewinds it and
      plays it again; without looping it only stops and rewinds. */
  lemma EndOfVideo(s: Player, paused: bool)
    requires s.media.duration.Some? && !s.gesture.isUserChangingProgress
    ensures var o := OnVideoChange(s, OnTimeUpdate(s.media.duration.value), paused);
            && o.state.media.currentTime == 0.0
            && o.commands == (if s.media.loop then [Stop, Play] else [Stop])
            && o.state.media.status == s.media.status
  {
  }

  /** While the user drags the progress bar, time updates change nothing
      but the playing flag and the view. */
  lemma DraggingFreezesTime(s: Player, time: real, paused: bool)
    requires s.gesture.isUserChangingProgress
    ensures var o := OnVideoChange(s, OnTimeUpdate(time), paused);
            o.commands == [] && o.state.media == s.media.(isVideoPlaying := !paused)
  {
  }

  /** A pause at the very start reads as stopped, anywhere else as paused. */
  lemma PauseStatus(s: Player)
    ensures OnVideoChange(s.(media := s.media.(currentTime := 0.0)), OnPause, true).state.media.status == Stopped
    ensures OnVideoChange(s.(media := s.media.(currentTime := 5.0)), OnPause, true).state.media.status == Paused
  {
  }

  // ---------------------------------------------------------------------
  // Seeking

  /** Moves under a second from the previous value are dropped; a move of a
      second or more is sent, and stops the video only when it sat at the
      end. */
  lemma SeekDeadBand(s: Player)
    requires s.media.duration == Some(100.0) && s.media.currentTime == 10.0
    ensures OnProgressChanged(s, 10.5, Some(10.0)).commands == []
    ensures OnProgressChanged(s, 9.2, Some(10.0)).commands == []
    ensures var o := OnProgressChanged(s, 11.0, Some(10.0));
            o.commands[0] == Seek(11.0) && Stop !in o.commands
    ensures OnProgressChanged(s, 10.5, None).commands[0] == Seek(10.5)
  {
  }

  /** A seek away from the end of a finished video also stops it, because
      the comparison reads the time before the seek lands. */
  lemma SeekFromEndStops(s: Player, newValue: real)
    requires s.media.duration.Some? && s.media.currentTime == s.media.duration.value
    ensures Stop in OnProgressChanged(s, newValue, None).commands
  {
  }

  // ---------------------------------------------------------------------
  // Volume

  /** `n` notches of the wheel in one direction. */
  function WheelSteps(volume: Tenths, up: bool, n: nat): Tenths
    decreases n
  {
    if n == 0 then volume else WheelSteps(WheelStep(volume, up), up, n - 1)
  }

  /** `n` notches move the volume by `n` tenths, saturating at full volume
      going up and at silence going down. */
  lemma {:induction false} WheelStepsSaturate(volume: Tenths, up: bool, n: nat)
    ensures up ==> WheelSteps(volume, up, n) == if volume + n <= 10 then volume + n else 10
    ensures !up ==> WheelSteps(volume, up, n) == if volume - n >= 0 then volume - n else 0
    decreases n
  {
    if n > 0 {
      WheelStepsSaturate(WheelStep(volume, up), up, n - 1);
    }
  }

  /** A notch down undoes a notch up that did not saturate, and the other
      way round. */
  lemma WheelRoundTrip(volume: Tenths)
    ensures volume < 10 ==> WheelStep(WheelStep(volume, true), false) == volume
    ensures volume > 0 ==> WheelStep(WheelStep(volume, false), true) == volume
  {
  }

  /** With the slider closed the wheel never changes the volume. */
  lemma WheelNeedsSlider(s: Player, deltaY: real)
    requires !s.view.doShowVolumeControls
    ensures OnMouseWheel(s, deltaY).state.media.volume == s.media.volume
    ensures forall c :: c in OnMouseWheel(s, deltaY).commands ==> !c.SetVolume?
  {
  }

  /** Releasing the slider at zero mutes; the next volume-button click
      unmutes at full volume. */
  lemma ReleaseAtZeroThenUnmute(s: Player)
    ensures var muted := OnVolumeChanged(s, 0);
            var clicked := OnVolumeButtonClick(muted);
            && muted.media.isMuted
            && !clicked.state.media.isMuted && clicked.state.media.volume == 10
            && clicked.commands == [SetMuted(false)]
  {
  }

  // ---------------------------------------------------------------------
  // Settings menu

  /** The "more" button pressed twice leaves the side bar as it was, on its
      main menu. */
  lemma MoreButtonTwice(m: Menu)
    ensures MoreButtonInfo(MoreButtonInfo(m)) == ResetSettingsMenu(m)
  {
  }

  /** Looping toggled twice is back where it was, with the loop panel shut. */
  lemma ChangeLoopTwice(s: Player)
    ensures ChangeLoop(ChangeLoop(s)) == s.(menu := s.menu.(showSideBarLoop := false))
  {
  }

  /** With the side bar open a click on the video never plays or pauses; two
      clicks from a sub-panel go back to the main menu and then close the
      side bar. */
  lemma EmptyClickWithSideBar(s: Player, fetched: Option<real>)
    requires s.menu.showSideBar
    ensures Play !in OnEmptyClick(s, fetched).commands && Pause !in OnEmptyClick(s, fetched).commands
    ensures var once := OnEmptyClick(s, fetched).state;
            !OnEmptyClick(once, fetched).state.menu.showSideBar && ShowSideBarMenu(OnEmptyClick(once, fetched).state.menu)
  {
  }
}
