/** The overlay (components/Overlay.tsx): which screen is shown, which
    buttons and modal actions exist on it, the momentary scatter button, and
    the gesture poll that turns a recognised hand pose into a layout. Every
    user action and every poll is an event on the pair of the application
    state and the last gesture label the overlay keeps. */
module Overlay {
  import opened Types
  import App

  /** A recognised gesture counts only with a score strictly above this. */
  const Threshold: real := 0.6

  /** HTMLMediaElement.HAVE_ENOUGH_DATA. */
  const ReadyToPlay: int := 4

  /** The label the overlay shows while no hand is seen. */
  const NoHand: string := "None"

  /** One category of a recogniser result. */
  datatype Category = Category(categoryName: string, score: real)

  /** What recognizeForVideo did for one frame: it threw, or it returned one
      list of ranked categories per detected hand. */
  datatype Recognition = Threw | Recognized(gestures: seq<seq<Category>>)

  /** Everything one detectGesture call reads besides the application state:
      the mounted <video> element with its readyState (None when no video is
      mounted), whether the recogniser object exists, whether it finished
      loading, and what recognising this frame gives. */
  datatype Poll = Poll(
    video: Option<int>,
    recognizerPresent: bool,
    gestureLoaded: bool,
    recognition: Recognition)

  /** The overlay's writes from one poll: the new last-gesture label, if
      any, and the layout it sets, if any. */
  datatype Detection = Detection(lastGesture: Option<string>, write: Option<TreeState>)

  const NoDetection := Detection(None, None)

  /** The application state together with the overlay's own label. */
  datatype Ui = Ui(app: AppState, lastGesture: string)

  function Start(): (u: Ui)
    ensures u.app == App.Initial() && u.lastGesture == NoHand
  {
    Ui(App.Initial(), NoHand)
  }

  /** The gesture-to-layout table: an open palm or a victory sign scatters
      the tree, a closed fist or a thumb up forms it; every other label maps
      to nothing. */
  function GestureTarget(name: string): (t: Option<TreeState>)
    ensures t == Some(Scattered) <==> name == "Open_Palm" || name == "Victory"
    ensures t == Some(TreeShape) <==> name == "Closed_Fist" || name == "Thumb_Up"
  {
    if name == "Open_Palm" || name == "Victory" then Some(Scattered)
    else if name == "Closed_Fist" || name == "Thumb_Up" then Some(TreeShape)
    else None
  }

  /** The guard of detectGesture: a mounted video with enough data, a
      loaded recogniser, no photo open and not on the selfie screen. So the
      recogniser never runs under the photo modal or in selfie mode, nor
      before the recogniser has loaded. */
  predicate CanRecognize(s: AppState, p: Poll): (b: bool)
    ensures b ==> p.video == Some(ReadyToPlay)
    ensures b ==> ModalFor(s).None? && ScreenFor(s) != SelfieScreen
    ensures !p.recognizerPresent || !p.gestureLoaded || s.selectedPhoto.Some? || s.isSelfieMode ==> !b
  {
    && p.video.Some? && p.recognizerPresent && p.gestureLoaded
    && p.video.value == ReadyToPlay
    && s.selectedPhoto.None? && !s.isSelfieMode
  }

  /** What one detectGesture call writes. A throw anywhere in the try block,
      including reading the top category of an empty per-hand list, is
      caught and writes nothing. A layout is written only when it differs
      from the current one, and always together with the label that chose
      it. */
  function Detect(s: AppState, p: Poll): (d: Detection)
    ensures !CanRecognize(s, p) || p.recognition.Threw? ==> d == NoDetection
    ensures d.write.Some? ==> d.lastGesture.Some? && d.write != Some(s.treeState)
                              && GestureTarget(d.lastGesture.value) == d.write
    ensures d.lastGesture == Some(NoHand) && d.write.None? <==>
              CanRecognize(s, p) && p.recognition.Recognized?
              && (|p.recognition.gestures| == 0
                  || (|p.recognition.gestures[0]| > 0
                      && p.recognition.gestures[0][0].categoryName == NoHand
                      && p.recognition.gestures[0][0].score > Threshold))
  {
    if !CanRecognize(s, p) then NoDetection
    else match p.recognition
      case Threw => NoDetection
      case Recognized(gestures) =>
        if |gestures| == 0 then Detection(Some(NoHand), None)
        else if |gestures[0]| == 0 then NoDetection
        else
          var top := gestures[0][0];
          if top.score > Threshold then
            var target := GestureTarget(top.categoryName);
            var write := if target.Some? && target.value != s.treeState then target else None;
            Detection(Some(top.categoryName), write)
          else NoDetection
  }

  /** Applying a detection: the label and the layout it writes, nothing else. */
  function ApplyDetection(u: Ui, d: Detection): (r: Ui)
    ensures r.lastGesture == (if d.lastGesture.Some? then d.lastGesture.value else u.lastGesture)
    ensures r.app == (if d.write.Some? then App.SetTreeState(u.app, d.write.value) else u.app)
  {
    var shown := if d.lastGesture.Some? then d.lastGesture.value else u.lastGesture;
    match d.write
    case Some(t) => Ui(App.SetTreeState(u.app, t), shown)
    case None => Ui(u.app, shown)
  }

  /** One poll of the recogniser. It changes only the layout and the label:
      permission, selection, selfie and reward modes are untouched, and a
      changed layout is always the target of the label now shown. */
  function PollOnce(u: Ui, p: Poll): (r: Ui)
    ensures r.app.hasPermission == u.app.hasPermission
    ensures r.app.selectedPhoto == u.app.selectedPhoto
    ensures r.app.isSelfieMode == u.app.isSelfieMode
    ensures r.app.isRewardMode == u.app.isRewardMode
    ensures r.app.treeState != u.app.treeState ==> GestureTarget(r.lastGesture) == Some(r.app.treeState)
  {
    ApplyDetection(u, Detect(u.app, p))
  }

  /** A top score of at most 0.6 changes neither the layout nor the label. */
  lemma BelowThresholdIgnored(u: Ui, p: Poll)
    requires p.recognition.Recognized?
    requires |p.recognition.gestures| > 0 && |p.recognition.gestures[0]| > 0
    requires p.recognition.gestures[0][0].score <= Threshold
    ensures PollOnce(u, p) == u
  {
  }

  /** Above the threshold the top label is recorded, and the layout becomes
      the label's target when it has one and stays as it was otherwise. */
  lemma AboveThresholdMapping(u: Ui, p: Poll)
    requires CanRecognize(u.app, p) && p.recognition.Recognized?
    requires |p.recognition.gestures| > 0 && |p.recognition.gestures[0]| > 0
    requires p.recognition.gestures[0][0].score > Threshold
    ensures var name := p.recognition.gestures[0][0].categoryName;
      var r := PollOnce(u, p);
      && r.lastGesture == name
      && (name == "Open_Palm" || name == "Victory" ==> r.app.treeState == Scattered)
      && (name == "Closed_Fist" || name == "Thumb_Up" ==> r.app.treeState == TreeShape)
      && (GestureTarget(name).None? ==> r.app == u.app)
  {
  }

  /** No hand in view resets the label to "None" and keeps the layout. */
  lemma NoHandResetsLabel(u: Ui, p: Poll)
    requires CanRecognize(u.app, p) && p.recognition == Recognized([])
    ensures PollOnce(u, p) == Ui(u.app, NoHand)
  {
  }

  /** Repeating the same frame changes nothing more: the guard reads no field
      a poll writes, and the redundant-write guard stops a second write. */
  lemma PollIdempotent(u: Ui, p: Poll)
    ensures PollOnce(PollOnce(u, p), p) == PollOnce(u, p)
    ensures Detect(PollOnce(u, p).app, p).write.None?
  {
  }

  /** The manual button: pressing (mouse down or touch start) scatters,
      releasing (mouse up or touch end) forms; the layout is all it touches. */
  function Press(s: AppState): (r: AppState)
    ensures r.treeState == Scattered
    ensures r.hasPermission == s.hasPermission && r.selectedPhoto == s.selectedPhoto
    ensures r.isSelfieMode == s.isSelfieMode && r.isRewardMode == s.isRewardMode
  {
    App.SetTreeState(s, Scattered)
  }

  function Release(s: AppState): (r: AppState)
    ensures r.treeState == TreeShape
    ensures r.hasPermission == s.hasPermission && r.selectedPhoto == s.selectedPhoto
    ensures r.isSelfieMode == s.isSelfieMode && r.isRewardMode == s.isRewardMode
  {
    App.SetTreeState(s, TreeShape)
  }

  /** The button is momentary, not a toggle: a press scatters whatever the
      layout was, holding it (a second press) changes nothing, and a release
      always forms the tree, so press-and-release returns to the tree. */
  lemma MomentaryButton(s: AppState)
    ensures Press(Press(s)) == Press(s)
    ensures Release(Press(s)) == Release(s)
    ensures Release(Press(s)).treeState == TreeShape
  {
  }

  /** The four full-screen views of the overlay. */
  datatype Screen = PrivacyScreen | RewardScreen | SelfieScreen | HudScreen

  /** The screen shown: privacy until permission is granted, then reward if
      reward mode is on, then selfie if selfie mode is on, else the HUD. */
  function ScreenFor(s: AppState): (sc: Screen)
    ensures sc == PrivacyScreen <==> !s.hasPermission
    ensures sc == RewardScreen <==> s.hasPermission && s.isRewardMode
    ensures sc == SelfieScreen <==> s.hasPermission && !s.isRewardMode && s.isSelfieMode
    ensures sc == HudScreen <==> s.hasPermission && !s.isRewardMode && !s.isSelfieMode
  {
    if !s.hasPermission then PrivacyScreen
    else if s.isRewardMode then RewardScreen
    else if s.isSelfieMode then SelfieScreen
    else HudScreen
  }

  /** The one action the photo modal offers. */
  datatype ModalAction = UnlockReward | CloseModal

  /** The photo modal is drawn on the HUD over a selected photo; for the
      clue photo it offers only UNLOCK REWARD (start selfie), for any other
      only CLOSE. */
  function ModalFor(s: AppState): (m: Option<ModalAction>)
    ensures m.Some? <==> ScreenFor(s) == HudScreen && s.selectedPhoto.Some?
    ensures m == Some(UnlockReward) <==>
              ScreenFor(s) == HudScreen && s.selectedPhoto.Some? && s.selectedPhoto.value.kind == PhotoClue
  {
    if ScreenFor(s) != HudScreen then None
    else match s.selectedPhoto
      case None => None
      case Some(p) => if p.kind == PhotoClue then Some(UnlockReward) else Some(CloseModal)
  }

  /** What can happen to the overlay: button presses, clicks on particles,
      and polls of the gesture recogniser. */
  datatype Event =
    | GrantPermission
    | MouseDown
    | MouseUp
    | TouchStart
    | TouchEnd
    | GesturePoll(poll: Poll)
    | PhotoClick(particle: Particle)
    | StartSelfie
    | ClosePhoto
    | Reward

  /** Whether the event can occur in state u: its control is on the screen
      being shown and not covered by the modal, and a poll finds a <video>
      only where one is mounted (the HUD and the selfie screen). Particles
      are clickable on the HUD when no modal covers the scene, and only
      planes carry a click handler. Screen by screen: the privacy screen
      offers only ENABLE CAMERA; the reward screen offers nothing the state
      machine sees; the selfie screen offers the shutter and CLOSE; the
      modal offers its one action and covers everything else; the bare HUD
      offers the scatter button and clicks on photo frames. */
  predicate Enabled(u: Ui, e: Event): (b: bool)
    ensures ScreenFor(u.app) == PrivacyScreen ==>
      (b <==> e == GrantPermission || (e.GesturePoll? && e.poll.video.None?))
    ensures ScreenFor(u.app) == RewardScreen ==>
      (b <==> e.GesturePoll? && e.poll.video.None?)
    ensures ScreenFor(u.app) == SelfieScreen ==>
      (b <==> e == Reward || e == ClosePhoto || e.GesturePoll?)
    ensures ModalFor(u.app) == Some(UnlockReward) ==>
      (b <==> e == StartSelfie || e.GesturePoll?)
    ensures ModalFor(u.app) == Some(CloseModal) ==>
      (b <==> e == ClosePhoto || e.GesturePoll?)
    ensures ScreenFor(u.app) == HudScreen && u.app.selectedPhoto.None? ==>
      (b <==> e.MouseDown? || e.MouseUp? || e.TouchStart? || e.TouchEnd? || e.GesturePoll?
              || (e.PhotoClick? && e.particle.shape == Plane))
  {
    var s := u.app;
    var screen := ScreenFor(s);
    match e
    case GrantPermission => screen == PrivacyScreen
    case MouseDown => screen == HudScreen && s.selectedPhoto.None?
    case MouseUp => screen == HudScreen && s.selectedPhoto.None?
    case TouchStart => screen == HudScreen && s.selectedPhoto.None?
    case TouchEnd => screen == HudScreen && s.selectedPhoto.None?
    case GesturePoll(p) => p.video.Some? ==> screen == HudScreen || screen == SelfieScreen
    case PhotoClick(q) => screen == HudScreen && s.selectedPhoto.None? && q.shape == Plane
    case StartSelfie => ModalFor(s) == Some(UnlockReward)
    case ClosePhoto => ModalFor(s) == Some(CloseModal) || screen == SelfieScreen
    case Reward => screen == SelfieScreen
  }

  /** The effect of an enabled event; an event that cannot occur leaves the
      state as it is. Only polls change the label; permission and reward
      mode, once on, stay on; only the button and gestures move the tree;
      only a photo click, UNLOCK REWARD or CLOSE change the selection. */
  function Step(u: Ui, e: Event): (r: Ui)
    ensures !Enabled(u, e) ==> r == u
    ensures !e.GesturePoll? ==> r.lastGesture == u.lastGesture
    ensures u.app.hasPermission ==> r.app.hasPermission
    ensures u.app.isRewardMode ==> r.app.isRewardMode
    ensures r.app.treeState != u.app.treeState ==>
      e.MouseDown? || e.MouseUp? || e.TouchStart? || e.TouchEnd? || e.GesturePoll?
    ensures r.app.selectedPhoto != u.app.selectedPhoto ==> e.PhotoClick? || e == StartSelfie || e == ClosePhoto
  {
    if !Enabled(u, e) then u
    else match e
      case GrantPermission => u.(app := App.GrantPermission(u.app))
      case MouseDown => u.(app := Press(u.app))
      case TouchStart => u.(app := Press(u.app))
      case MouseUp => u.(app := Release(u.app))
      case TouchEnd => u.(app := Release(u.app))
      case GesturePoll(p) => PollOnce(u, p)
      case PhotoClick(q) => u.(app := App.PhotoClick(u.app, q))
      case StartSelfie => u.(app := App.StartSelfie(u.app))
      case ClosePhoto => u.(app := App.ClosePhoto(u.app))
      case Reward => u.(app := App.Reward(u.app))
  }

  /** The state after a sequence of events. */
  function Run(u: Ui, events: seq<Event>): Ui
    decreases |events|
  {
    if events == [] then u else Step(Run(u, events[..|events| - 1]), events[|events| - 1])
  }

  /** What holds in every reachable state: before permission nothing but
      the initial state is possible; the selfie screen has no photo open
      and no reward; the reward screen has neither; a selected photo is a
      plane. */
  ghost predicate Inv(u: Ui) {
    var s := u.app;
    && (!s.hasPermission ==>
          s.treeState == TreeShape && s.selectedPhoto.None? && !s.isSelfieMode && !s.isRewardMode)
    && (s.isSelfieMode ==> s.selectedPhoto.None? && !s.isRewardMode)
    && (s.isRewardMode ==> s.selectedPhoto.None? && !s.isSelfieMode)
    && (s.selectedPhoto.Some? ==> s.selectedPhoto.value.shape == Plane)
  }

  lemma StepPreservesInv(u: Ui, e: Event)
    requires Inv(u)
    ensures Inv(Step(u, e))
  {
  }

  lemma {:induction false} RunPreservesInv(events: seq<Event>)
    ensures Inv(Run(Start(), events))
    decreases |events|
  {
    if events != [] {
      RunPreservesInv(events[..|events| - 1]);
      StepPreservesInv(Run(Start(), events[..|events| - 1]), events[|events| - 1]);
    }
  }

  /** Only the reward button enters reward mode, and only from the selfie
      screen. */
  lemma RewardStep(u: Ui, e: Event)
    requires !u.app.isRewardMode && Step(u, e).app.isRewardMode
    ensures e == Reward && u.app.isSelfieMode
  {
  }

  /** Reward mode is reached only through selfie mode: some earlier state of
      the run was on the selfie screen. */
  lemma {:induction false} RewardFollowsSelfie(events: seq<Event>)
    requires Run(Start(), events).app.isRewardMode
    ensures exists k :: 0 <= k < |events| && Run(Start(), events[..k]).app.isSelfieMode
    decreases |events|
  {
    var n := |events|;
    if n > 0 {
      var before := events[..n - 1];
      assert Run(Start(), events) == Step(Run(Start(), before), events[n - 1]);
      if Run(Start(), before).app.isRewardMode {
        RewardFollowsSelfie(before);
        var k :| 0 <= k < |before| && Run(Start(), before[..k]).app.isSelfieMode;
        assert before[..k] == events[..k];
      } else {
        RewardStep(Run(Start(), before), events[n - 1]);
      }
    }
  }

  /** Only UNLOCK REWARD enters selfie mode, and only over the clue photo. */
  lemma SelfieStep(u: Ui, e: Event)
    requires !u.app.isSelfieMode && Step(u, e).app.isSelfieMode
    ensures e == StartSelfie
    ensures u.app.selectedPhoto.Some? && u.app.selectedPhoto.value.kind == PhotoClue
  {
  }

  /** Selfie mode is reached only by opening the clue photo first. */
  lemma {:induction false} SelfieFollowsClue(events: seq<Event>)
    requires Run(Start(), events).app.isSelfieMode
    ensures exists k :: 0 <= k < |events| && ClueOpen(Run(Start(), events[..k]))
    decreases |events|
  {
    var n := |events|;
    if n > 0 {
      var before := events[..n - 1];
      assert Run(Start(), events) == Step(Run(Start(), before), events[n - 1]);
      if Run(Start(), before).app.isSelfieMode {
        SelfieFollowsClue(before);
        var k :| 0 <= k < |before| && ClueOpen(Run(Start(), before[..k]));
        assert before[..k] == events[..k];
      } else {
        SelfieStep(Run(Start(), before), events[n - 1]);
      }
    }
  }

  predicate ClueOpen(u: Ui) {
    u.app.selectedPhoto.Some? && u.app.selectedPhoto.value.kind == PhotoClue
  }

  /** The clue's modal has no CLOSE: while it is open on the HUD, only
      UNLOCK REWARD changes the application state. */
  lemma ClueModalOnlyUnlocks(u: Ui, e: Event)
    requires Inv(u) && ScreenFor(u.app) == HudScreen && ClueOpen(u)
    requires Step(u, e).app != u.app
    ensures e == StartSelfie
  {
  }

  /** The selfie screen's CLOSE button is inert: it cannot leave selfie mode
      and, as no photo is open there, changes nothing at all. */
  lemma SelfieCloseInert(u: Ui)
    requires Inv(u) && ScreenFor(u.app) == SelfieScreen
    ensures Step(u, ClosePhoto) == u
  {
  }

  /** The selfie screen would draw the selected photo in a corner, but
      entering selfie mode clears the selection, so in a reachable state the
      picture is never drawn. */
  lemma SelfieNeverShowsPhoto(events: seq<Event>)
    requires ScreenFor(Run(Start(), events).app) == SelfieScreen
    ensures Run(Start(), events).app.selectedPhoto.None?
  {
    RunPreservesInv(events);
  }

  /** The gesture loop stops mattering on the reward screen: no video is
      mounted there, so a poll that can occur changes nothing. */
  lemma RewardScreenIgnoresGestures(u: Ui, p: Poll)
    requires ScreenFor(u.app) == RewardScreen
    ensures Step(u, GesturePoll(p)) == u
  {
  }

  /** The overlay as a stateful component: the application state it is
      rendered with and its own last-gesture label. */
  class Session {
    var app: AppState
    var lastGesture: string

    constructor ()
      ensures app == App.Initial() && lastGesture == NoHand
    {
      app := App.Initial();
      lastGesture := NoHand;
    }

    /** One detectGesture call: check the guard, read the top category of
        the first hand, record its label when the score clears the
        threshold and write the mapped layout when it differs. The rAF
        re-request at the end is not modelled. */
    method DetectGesture(p: Poll)
      modifies this
      ensures Ui(app, lastGesture) == PollOnce(old(Ui(app, lastGesture)), p)
    {
      if p.video.Some? && p.recognizerPresent && p.gestureLoaded && p.video.value == ReadyToPlay
         && app.selectedPhoto.None? && !app.isSelfieMode
      {
        match p.recognition {
          case Threw =>
          case Recognized(gestures) =>
            if |gestures| > 0 {
              if |gestures[0]| > 0 {
                var category := gestures[0][0].categoryName;
                var score := gestures[0][0].score;
                if score > Threshold {
                  lastGesture := category;
                  if category == "Open_Palm" || category == "Victory" {
                    if app.treeState != Scattered {
                      app := App.SetTreeState(app, Scattered);
                    }
                  } else if category == "Closed_Fist" || category == "Thumb_Up" {
                    if app.treeState != TreeShape {
                      app := App.SetTreeState(app, TreeShape);
                    }
                  }
                }
              }
            } else {
              lastGesture := NoHand;
            }
        }
      }
    }
  }
}
