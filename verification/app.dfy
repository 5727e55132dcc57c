/** The app-level PIN gate: the lock screen is shown while a PIN is enabled
    and the session is not yet unlocked, a session without a PIN unlocks on
    appearance, and the settings screen can remove the PIN. */
module App {
  import opened Common
  import opened Store
  import opened Pin

  /** Whether the window shows the lock screen instead of the content. */
  predicate ShowsLock(settings: AppSettings, isUnlocked: bool)
  {
    settings.pinEnabled && !isUnlocked
  }

  /** The window's `onAppear`: without a PIN the session unlocks at once. */
  function OnAppear(settings: AppSettings, isUnlocked: bool): (u: bool)
    ensures !settings.pinEnabled ==> u
    ensures settings.pinEnabled ==> u == isUnlocked
  {
    if !settings.pinEnabled then true else isUnlocked
  }

  /** A fresh launch starts locked and then appears: the lock screen is
      shown exactly when a PIN is enabled. */
  lemma LaunchShowsLockIffPin(settings: AppSettings)
    ensures ShowsLock(settings, OnAppear(settings, false)) <==> settings.pinEnabled
  {
  }

  /** The "Kaldır" action of the settings screen: the PIN is disabled and
      forgotten, and nothing else changes. */
  function RemovePin(m: DataManager): (r: DataManager)
    ensures !r.settings.pinEnabled && r.settings.pinCode.None?
    ensures r.settings.(pinEnabled := m.settings.pinEnabled, pinCode := m.settings.pinCode) == m.settings
    ensures r.folders == m.folders && r.documents == m.documents
  {
    UpdateSettings(m, m.settings.(pinEnabled := false, pinCode := None))
  }

  /** Once the PIN is removed the lock screen is never shown. */
  lemma RemovedPinNeverLocks(m: DataManager, isUnlocked: bool)
    ensures !ShowsLock(RemovePin(m).settings, isUnlocked)
  {
  }

  /** An enabled PIN always has a stored code. */
  predicate PinConsistent(settings: AppSettings)
  {
    settings.pinEnabled ==> settings.pinCode.Some?
  }

  /** The settings a fresh installation starts with are consistent, and
      both the setup screen and the removal keep them so. */
  lemma DefaultSettingsConsistent()
    ensures PinConsistent(DefaultSettings)
  {
  }

  lemma SetupKeepsConsistent(s: Setup, m: DataManager, pin: string)
    requires PinConsistent(m.settings)
    ensures PinConsistent(SetupComplete(s, m, pin).store.settings)
    ensures PinConsistent(SetupCancel(s, m).store.settings)
  {
  }

  lemma RemovePinKeepsConsistent(m: DataManager)
    ensures PinConsistent(RemovePin(m).settings)
  {
  }

  /** With consistent settings the lock screen can always be opened: the
      stored code opens it whatever has been entered before. */
  lemma LockCanBeOpened(settings: AppSettings, l: Lock)
    requires PinConsistent(settings) && ShowsLock(settings, l.unlocked)
    ensures exists pin :: LockComplete(l, settings, pin).unlocked
  {
    assert LockComplete(l, settings, settings.pinCode.value).unlocked;
  }

  /** After a PIN is set up, the next launch shows the lock screen, and
      entering that PIN there takes it away. */
  lemma SetupThenRelaunch(m: DataManager, pin: string)
    ensures var first := SetupComplete(SetupStart, m, pin);
            var settings := SetupComplete(first.setup, first.store, pin).store.settings;
            && ShowsLock(settings, OnAppear(settings, false))
            && !ShowsLock(settings, LockComplete(LockStart, settings, pin).unlocked)
  {
  }
}
