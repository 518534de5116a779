/**
 * The SnapView tray application (cmd/snapview/main.go): start-up, the
 * single-flight screenshot gate and the Copy-to-Clipboard and Auto-Save
 * toggles. Unlike SnapHook it never starts the preview server, so every
 * finished capture is recorded in the preview history but its display is
 * refused.
 */
module SnapView {
  import opened Wrappers
  import Config
  import Preview
  import Hotkey

  /** The identity of `handleScreenshot` as a hotkey handler. */
  const HANDLE_SCREENSHOT: Hotkey.HandlerId := 1

  /** What a finished capture does, in order: the gate opens, then the clipboard copy starts, then the preview shows. */
  datatype Effect = Released | Copied(path: string) | Shown(path: string)

  /** The effects of a capture that produced `path`: the preview is shown whatever the settings say. */
  function SuccessEffects(cfg: Config.Config, path: string): (e: seq<Effect>)
    ensures |e| >= 2 && e[0] == Released && e[|e| - 1] == Shown(path)
    ensures |e| == 2 + (if cfg.copyToClipboard then 1 else 0)
    ensures forall k :: 1 <= k < |e| ==> !e[k].Released? && e[k].path == path
    ensures Copied(path) in e <==> cfg.copyToClipboard
  {
    [Released] + (if cfg.copyToClipboard then [Copied(path)] else []) + [Shown(path)]
  }

  class App {
    const preview: Preview.Server
    const hotkeys: Hotkey.Manager
    /** `config.GetAutoSaveDir()`. */
    const autoSaveDir: string
    /** `currentConfig`. */
    var config: Config.Config
    var screenshotInProgress: bool
    /** The check marks of the two feature items. */
    var copyChecked: bool
    var autoSaveChecked: bool
    /** What `capture.SetAutoSave` was last given. */
    var captureAutoSave: bool
    var captureDir: string
    /** Capture goroutines launched and not yet finished. */
    ghost var pending: nat
    ghost var effects: seq<Effect>
    /** Every configuration handed to `config.Save`, in order. */
    ghost var saved: seq<Config.Config>

    ghost predicate Valid()
      reads this, preview, hotkeys
    {
      && preview.Valid() && hotkeys.Valid()
      && !preview.serverStarted
      && pending == (if screenshotInProgress then 1 else 0)
      && copyChecked == config.copyToClipboard
      && autoSaveChecked == config.autoSave
      && (captureAutoSave ==> config.autoSave && captureDir == autoSaveDir)
      && (!captureAutoSave ==> captureDir == "")
    }

    /**
     * `onReady`: the loaded settings or the fallback, the hotkey registration
     * (whose failure does not stop start-up) and auto-save when its directory
     * can be made. No cleanup runs and no preview server is started.
     */
    constructor (loaded: Result<Config.Config>, os: Outcome, tid: nat, dirOk: bool, saveDir: string)
      requires os.Pass? ==> tid != 0
      ensures Valid()
      ensures fresh(preview) && fresh(hotkeys)
      ensures config == Config.LoadOrDefault(loaded) && autoSaveDir == saveDir
      ensures !screenshotInProgress && effects == [] && saved == []
      ensures hotkeys.currentHandler == Some(HANDLE_SCREENSHOT)
      ensures hotkeys.isRunning <==> Hotkey.ParseHotkey(config.hotkey).Success?
      ensures captureAutoSave <==> config.autoSave && dirOk
      ensures preview.history == [] && preview.latestImage == ""
    {
      var cfg := Config.LoadOrDefault(loaded);
      var hk := new Hotkey.Manager();
      var _ := hk.Register(cfg.hotkey, Some(HANDLE_SCREENSHOT), os, tid);
      var autoSaveOn := cfg.autoSave && dirOk;
      var server := new Preview.Server();
      preview, hotkeys, autoSaveDir := server, hk, saveDir;
      config := cfg;
      screenshotInProgress := false;
      copyChecked, autoSaveChecked := cfg.copyToClipboard, cfg.autoSave;
      captureAutoSave, captureDir := autoSaveOn, if autoSaveOn then saveDir else "";
      pending, effects, saved := 0, [], [];
    }

    /** `handleScreenshot` up to the capture goroutine: a check-and-set of the in-progress flag. */
    method Trigger() returns (started: bool)
      requires Valid()
      modifies this
      ensures Valid()
      ensures started <==> !old(screenshotInProgress)
      ensures screenshotInProgress
      ensures pending == old(pending) + if started then 1 else 0
      ensures config == old(config) && captureAutoSave == old(captureAutoSave) && captureDir == old(captureDir)
      ensures effects == old(effects) && saved == old(saved)
    {
      if screenshotInProgress {
        return false;
      }
      screenshotInProgress := true;
      pending := pending + 1;
      return true;
    }

    /**
     * The capture goroutine after `CaptureScreen` returned: the flag is reset
     * on both paths; on success the clipboard copy is started iff
     * CopyToClipboard, and the image always goes to the preview, which records
     * it and then refuses it because the server was never started.
     */
    method CaptureDone(result: Result<string>) returns (shown: Option<Outcome>)
      requires Valid() && pending > 0
      modifies this, preview
      ensures Valid()
      ensures !screenshotInProgress && pending == old(pending) - 1
      ensures result.Failure? ==> effects == old(effects) + [Released] && shown == None
      ensures result.Success? ==> effects == old(effects) + SuccessEffects(old(config), result.value)
      ensures shown == if result.Success? then Some(Fail("preview server not started")) else None
      ensures result.Success? ==>
                && preview.history == Preview.AppendImage(old(preview.history), result.value).history
                && preview.latestImage == result.value
      ensures result.Success? ==>
                && preview.deleted == old(preview.deleted) + OptionToSeq(Preview.AppendImage(old(preview.history), result.value).evicted)
                && preview.queues == old(preview.queues) && preview.clients == old(preview.clients)
                && preview.closed == old(preview.closed) && preview.nextChan == old(preview.nextChan)
                && preview.windowsOpened == old(preview.windowsOpened) && preview.browserOpened == old(preview.browserOpened)
                && preview.serverStarted == old(preview.serverStarted) && preview.serverCreated == old(preview.serverCreated)
      ensures result.Failure? ==> unchanged(preview)
      ensures config == old(config) && captureAutoSave == old(captureAutoSave) && captureDir == old(captureDir)
      ensures saved == old(saved)
    {
      // The gate reset and the settings read come first in Go; the step is
      // atomic, so the fields of the app are written once, after the show.
      shown := None;
      ghost var done := [Released];
      if result.Success? {
        var imagePath := result.value;
        done := done + (if config.copyToClipboard then [Copied(imagePath)] else []) + [Shown(imagePath)];
        var r := preview.ShowInBrowser(imagePath);
        shown := Some(r);
      }
      screenshotInProgress, pending, effects := false, pending - 1, effects + done;
    }

    /** The Copy-to-Clipboard item: flag and check mark invert together, then the settings are saved. */
    method ToggleCopy()
      requires Valid()
      modifies this
      ensures Valid()
      ensures config == old(config).(copyToClipboard := !old(config.copyToClipboard))
      ensures saved == old(saved) + [config]
      ensures screenshotInProgress == old(screenshotInProgress) && effects == old(effects)
      ensures captureAutoSave == old(captureAutoSave) && captureDir == old(captureDir)
    {
      if copyChecked {
        config := config.(copyToClipboard := false);
        copyChecked := false;
      } else {
        config := config.(copyToClipboard := true);
        copyChecked := true;
      }
      saved := saved + [config];
    }

    /**
     * The Auto-Save item: a checked item always turns auto-save off; an
     * unchecked one turns it on only when the directory can be made, and stays
     * off otherwise. The settings are saved either way.
     */
    method ToggleAutoSave(dirOk: bool)
      requires Valid()
      modifies this
      ensures Valid()
      ensures old(config.autoSave) ==> !config.autoSave && !captureAutoSave
      ensures !old(config.autoSave) ==> config.autoSave == dirOk && captureAutoSave == dirOk
      ensures config == old(config).(autoSave := config.autoSave)
      ensures saved == old(saved) + [config]
      ensures screenshotInProgress == old(screenshotInProgress) && effects == old(effects)
    {
      if autoSaveChecked {
        config := config.(autoSave := false);
        captureAutoSave, captureDir := false, "";
        autoSaveChecked := false;
      } else if dirOk {
        config := config.(autoSave := true);
        captureAutoSave, captureDir := true, autoSaveDir;
        autoSaveChecked := true;
      }
      saved := saved + [config];
    }

    /** `onExit`: the (never started) preview server is shut down, then the hotkey is unregistered. */
    method Exit(exitsInTime: bool) returns (w: Hotkey.WaitResult)
      requires Valid()
      modifies preview, hotkeys
      ensures !preview.serverStarted && !hotkeys.isRunning
      ensures preview.history == old(preview.history) && preview.latestImage == old(preview.latestImage)
      ensures preview.clients == old(preview.clients) && preview.queues == old(preview.queues)
      ensures preview.closed == old(preview.closed) && preview.nextChan == old(preview.nextChan)
      ensures preview.deleted == old(preview.deleted) && preview.windowsOpened == old(preview.windowsOpened)
      ensures preview.browserOpened == old(preview.browserOpened) && preview.serverCreated == old(preview.serverCreated)
      ensures hotkeys.currentHandler == old(hotkeys.currentHandler) && hotkeys.launched == old(hotkeys.launched)
      ensures old(hotkeys.isRunning) <==> w != Hotkey.NotRunning
      ensures hotkeys.events == old(hotkeys.events) + if old(hotkeys.isRunning) then [Hotkey.StoppedRunning] else []
      ensures hotkeys.threadID == old(hotkeys.threadID) && hotkeys.loopExitChan == old(hotkeys.loopExitChan)
      ensures hotkeys.nextChan == old(hotkeys.nextChan)
      ensures !old(hotkeys.isRunning) ==> hotkeys.loops == old(hotkeys.loops) && hotkeys.closedChans == old(hotkeys.closedChans)
      ensures old(hotkeys.isRunning) ==>
                var quit := old(hotkeys.threadID) != 0 && old(hotkeys.threadID) in old(hotkeys.loops);
                && hotkeys.loops == (if quit then old(hotkeys.loops) - {old(hotkeys.threadID)} else old(hotkeys.loops))
                && hotkeys.closedChans == (if quit then old(hotkeys.closedChans) + {old(hotkeys.loopExitChan)}
                                           else old(hotkeys.closedChans))
                && w == (if old(hotkeys.loopExitChan) in old(hotkeys.closedChans) || (quit && exitsInTime)
                         then Hotkey.LoopExited else Hotkey.TimedOut)
    {
      preview.Shutdown();
      w := hotkeys.Unregister(exitsInTime);
    }
  }

  /**
   * Two captures in a row: both are refused by the preview, yet both are in
   * its history, newest last.
   */
  method TwoCaptures(loaded: Result<Config.Config>, first: string, second: string)
    returns (shown1: Option<Outcome>, shown2: Option<Outcome>, history: seq<string>)
    ensures shown1 == shown2 == Some(Fail("preview server not started"))
    ensures history == [first, second]
  {
    var app := new App(loaded, Fail("refused"), 0, false, "");
    var _ := app.Trigger();
    shown1 := app.CaptureDone(Success(first));
    var _ := app.Trigger();
    shown2 := app.CaptureDone(Success(second));
    history := app.preview.history;
  }
}
