/** The application root (App.tsx): one AppState record and the handlers
    that replace it with an updated copy. Each handler touches one or two
    fields and copies the rest. */
module App {
  import opened Types

  /** The state the application starts in: no camera permission yet, the
      tree formed, no photo open, neither selfie nor reward screen. */
  function Initial(): (s: AppState)
    ensures !s.hasPermission && s.treeState == TreeShape
    ensures s.selectedPhoto == None && !s.isSelfieMode && !s.isRewardMode
  {
    AppState(false, TreeShape, None, false, false)
  }

  /** handleGrantPermission: permission is granted; nothing else changes. */
  function GrantPermission(s: AppState): (r: AppState)
    ensures r.hasPermission
    ensures r.treeState == s.treeState && r.selectedPhoto == s.selectedPhoto
    ensures r.isSelfieMode == s.isSelfieMode && r.isRewardMode == s.isRewardMode
  {
    s.(hasPermission := true)
  }

  /** setTreeState: only the layout changes. */
  function SetTreeState(s: AppState, t: TreeState): (r: AppState)
    ensures r.treeState == t
    ensures r.hasPermission == s.hasPermission && r.selectedPhoto == s.selectedPhoto
    ensures r.isSelfieMode == s.isSelfieMode && r.isRewardMode == s.isRewardMode
  {
    s.(treeState := t)
  }

  /** handlePhotoClick: the clicked particle becomes the selected photo;
      nothing else changes. */
  function PhotoClick(s: AppState, p: Particle): (r: AppState)
    ensures r.selectedPhoto == Some(p)
    ensures r.hasPermission == s.hasPermission && r.treeState == s.treeState
    ensures r.isSelfieMode == s.isSelfieMode && r.isRewardMode == s.isRewardMode
  {
    s.(selectedPhoto := Some(p))
  }

  /** closePhoto: the selection is cleared; nothing else changes, so in
      particular it never leaves selfie mode. */
  function ClosePhoto(s: AppState): (r: AppState)
    ensures r.selectedPhoto == None
    ensures r.hasPermission == s.hasPermission && r.treeState == s.treeState
    ensures r.isSelfieMode == s.isSelfieMode && r.isRewardMode == s.isRewardMode
  {
    s.(selectedPhoto := None)
  }

  /** startSelfie: selfie mode starts and the photo closes; permission,
      layout and reward mode are kept. */
  function StartSelfie(s: AppState): (r: AppState)
    ensures r.isSelfieMode && r.selectedPhoto == None
    ensures r.hasPermission == s.hasPermission && r.treeState == s.treeState
    ensures r.isRewardMode == s.isRewardMode
  {
    s.(isSelfieMode := true, selectedPhoto := None)
  }

  /** handleReward: selfie mode ends and reward mode starts; permission,
      layout and selection are kept. */
  function Reward(s: AppState): (r: AppState)
    ensures r.isRewardMode && !r.isSelfieMode
    ensures r.hasPermission == s.hasPermission && r.treeState == s.treeState
    ensures r.selectedPhoto == s.selectedPhoto
  {
    s.(isSelfieMode := false, isRewardMode := true)
  }

  /** Every handler is idempotent: a repeated click, grant or reward leaves
      the state as the first one did. */
  lemma HandlersIdempotent(s: AppState, t: TreeState, p: Particle)
    ensures GrantPermission(GrantPermission(s)) == GrantPermission(s)
    ensures SetTreeState(SetTreeState(s, t), t) == SetTreeState(s, t)
    ensures PhotoClick(PhotoClick(s, p), p) == PhotoClick(s, p)
    ensures ClosePhoto(ClosePhoto(s)) == ClosePhoto(s)
    ensures StartSelfie(StartSelfie(s)) == StartSelfie(s)
    ensures Reward(Reward(s)) == Reward(s)
  {
  }

  /** The layout is independent of the overlay's flags: setting it commutes
      with every other handler, and the last write of it wins. */
  lemma TreeStateIndependent(s: AppState, t: TreeState, u: TreeState, p: Particle)
    ensures SetTreeState(GrantPermission(s), t) == GrantPermission(SetTreeState(s, t))
    ensures SetTreeState(PhotoClick(s, p), t) == PhotoClick(SetTreeState(s, t), p)
    ensures SetTreeState(ClosePhoto(s), t) == ClosePhoto(SetTreeState(s, t))
    ensures SetTreeState(StartSelfie(s), t) == StartSelfie(SetTreeState(s, t))
    ensures SetTreeState(Reward(s), t) == Reward(SetTreeState(s, t))
    ensures SetTreeState(SetTreeState(s, u), t) == SetTreeState(s, t)
  {
  }

  /** The selfie screen's CLOSE button calls closePhoto, which cannot leave
      selfie mode: from the selfie screen only the reward handler (or a
      reload) gets the user out. */
  lemma CloseKeepsSelfie(s: AppState)
    requires s.isSelfieMode
    ensures ClosePhoto(s).isSelfieMode
    ensures ClosePhoto(s) == s <==> s.selectedPhoto == None
  {
  }

  /** Starting a selfie undoes a photo click: the selection it leaves is the
      one a close would leave. */
  lemma SelfieClosesPhoto(s: AppState, p: Particle)
    ensures StartSelfie(PhotoClick(s, p)) == StartSelfie(ClosePhoto(s))
    ensures StartSelfie(s).selectedPhoto == ClosePhoto(s).selectedPhoto
  {
  }
}
