/**
 * The SnapHook tray application (cmd/snaphook/main.go): start-up, the
 * single-flight screenshot gate, and the Copy-to-Clipboard, Auto-Save and
 * Enable-Preview menu toggles. Each locked section is one atomic step; the
 * capture goroutine is split into the step that launches it (`Trigger`) and
 * the step that sees its result (`CaptureDone`). Answers of the file system
 * and the OS are parameters.
 */
module SnapHook {
  import opened Wrappers
  import Config
  import Preview
  import Hotkey
  import Capture

  /** The identity of `handleScreenshot` as a hotkey handler. */
  const HANDLE_SCREENSHOT: Hotkey.HandlerId := 1

  /** What a finished capture does, in order: the gate opens, then the clipboard copy starts, then the preview shows. */
  datatype Effect = Released | Copied(path: string) | Shown(path: string)

  /** The effects of a capture that produced `path`, under the settings read after the gate opened. */
  function SuccessEffects(cfg: Config.Config, path: string): (e: seq<Effect>)
    ensures |e| >= 1 && e[0] == Released
    ensures |e| == 1 + (if cfg.copyToClipboard then 1 else 0) + (if cfg.enablePreview then 1 else 0)
    ensures forall k :: 1 <= k < |e| ==> !e[k].Released? && e[k].path == path
    ensures Copied(path) in e <==> cfg.copyToClipboard
    ensures Shown(path) in e <==> cfg.enablePreview
    ensures cfg.copyToClipboard && cfg.enablePreview ==> e == [Released, Copied(path), Shown(path)]
  {
    [Released] + (if cfg.copyToClipboard then [Copied(path)] else [])
               + (if cfg.enablePreview then [Shown(path)] else [])
  }

  class App {
    const preview: Preview.Server
    const hotkeys: Hotkey.Manager
    /** `config.GetAutoSaveDir()`. */
    const autoSaveDir: string
    /** `currentConfig`. */
    var config: Config.Config
    var screenshotInProgress: bool
    /** The check marks of the three feature items. */
    var copyChecked: bool
    var autoSaveChecked: bool
    var previewChecked: bool
    /** Whether the "View Preview" item is enabled. */
    var viewPreviewEnabled: bool
    /** What `capture.SetAutoSave` was last given. */
    var captureAutoSave: bool
    var captureDir: string
    /** Capture goroutines launched and not yet finished. */
    ghost var pending: nat
    ghost var effects: seq<Effect>
    /** Every configuration handed to `config.Save`, in order. */
    ghost var saved: seq<Config.Config>
    /** The temporary files the start-up cleanup removed. */
    ghost var cleaned: seq<string>

    ghost predicate Valid()
      reads this, preview, hotkeys
    {
      && preview.Valid() && hotkeys.Valid()
      && pending == (if screenshotInProgress then 1 else 0)
      && copyChecked == config.copyToClipboard
      && autoSaveChecked == config.autoSave
      && previewChecked == config.enablePreview
      && viewPreviewEnabled == config.enablePreview
      && preview.serverStarted == config.enablePreview
      && (captureAutoSave ==> config.autoSave && captureDir == autoSaveDir)
      && (!captureAutoSave ==> captureDir == "")
    }

    /**
     * `onReady`: the loaded settings or the fallback, the cleanup of old
     * temporary files, the hotkey registration (whose failure does not stop
     * start-up), auto-save when its directory can be made, and the preview
     * server when enabled.
     */
    constructor (loaded: Result<Config.Config>, matches: Option<seq<Capture.FileInfo>>, now: int,
                 os: Outcome, tid: nat, dirOk: bool, saveDir: string)
      requires os.Pass? ==> tid != 0
      ensures Valid()
      ensures fresh(preview) && fresh(hotkeys)
      ensures config == Config.LoadOrDefault(loaded) && autoSaveDir == saveDir
      ensures cleaned == if matches.Some? then Capture.StalePaths(matches.value, now) else []
      ensures !screenshotInProgress && effects == [] && saved == []
      ensures hotkeys.currentHandler == Some(HANDLE_SCREENSHOT)
      ensures hotkeys.isRunning <==> Hotkey.ParseHotkey(config.hotkey).Success?
      ensures captureAutoSave <==> config.autoSave && dirOk
      ensures preview.history == [] && preview.latestImage == ""
    {
      var cfg := Config.LoadOrDefault(loaded);
      var removed := Capture.CleanupOldTempFiles(matches, now);
      var hk := new Hotkey.Manager();
      var _ := hk.Register(cfg.hotkey, Some(HANDLE_SCREENSHOT), os, tid);
      var autoSaveOn := cfg.autoSave && dirOk;
      var server := new Preview.Server();
      if cfg.enablePreview {
        server.Start();
      }
      preview, hotkeys, autoSaveDir := server, hk, saveDir;
      config := cfg;
      screenshotInProgress := false;
      copyChecked, autoSaveChecked, previewChecked := cfg.copyToClipboard, cfg.autoSave, cfg.enablePreview;
      viewPreviewEnabled := cfg.enablePreview;
      captureAutoSave, captureDir := autoSaveOn, if autoSaveOn then saveDir else "";
      pending, effects, saved, cleaned := 0, [], [], removed;
    }

    /** `handleScreenshot` up to the capture goroutine: a check-and-set of the in-progress flag. */
    method Trigger() returns (started: bool)
      requires Valid()
      modifies this
      ensures Valid()
      ensures started <==> !old(screenshotInProgress)
      ensures screenshotInProgress
      ensures pending == old(pending) + if started then 1 else 0
      ensures config == old(config) && captureAutoSave == old(captureAutoSave) && captureDir == old(captureDir)
      ensures effects == old(effects) && saved == old(saved)
    {
      if screenshotInProgress {
        return false;
      }
      screenshotInProgress := true;
      pending := pending + 1;
      return true;
    }

    /**
     * The capture goroutine after `CaptureScreen` returned: the flag is reset
     * on both paths; on success the clipboard copy is started iff
     * CopyToClipboard and the image is shown iff EnablePreview, both read
     * after the reset. The step also covers the later `preview.Show`, so a
     * shown image finds the server started.
     */
    method CaptureDone(result: Result<string>) returns (shown: Option<Outcome>)
      requires Valid() && pending > 0
      modifies this, preview
      ensures Valid()
      ensures !screenshotInProgress && pending == old(pending) - 1
      ensures result.Failure? ==> effects == old(effects) + [Released] && shown == None
      ensures result.Success? ==> effects == old(effects) + SuccessEffects(old(config), result.value)
      ensures shown == if result.Success? && old(config.enablePreview) then Some(Pass) else None
      ensures shown.Some? ==>
                && preview.history == Preview.AppendImage(old(preview.history), result.value).history
                && preview.latestImage == result.value
      ensures shown.Some? ==>
                && preview.deleted == old(preview.deleted) + OptionToSeq(Preview.AppendImage(old(preview.history), result.value).evicted)
                && preview.queues == Preview.Fanout(old(preview.queues), old(preview.clients), Preview.UPDATE_EVENT)
                && preview.windowsOpened == old(preview.windowsOpened) + (if old(preview.clients) == [] then 1 else 0)
                && preview.browserOpened == (old(preview.browserOpened) || old(preview.clients) == [])
                && preview.clients == old(preview.clients) && preview.closed == old(preview.closed)
                && preview.nextChan == old(preview.nextChan)
                && preview.serverStarted == old(preview.serverStarted) && preview.serverCreated == old(preview.serverCreated)
      ensures shown.None? ==> unchanged(preview)
      ensures config == old(config) && captureAutoSave == old(captureAutoSave) && captureDir == old(captureDir)
      ensures saved == old(saved) && viewPreviewEnabled == old(viewPreviewEnabled)
    {
      // The gate reset and the settings read come first in Go; the step is
      // atomic, so the fields of the app are written once, after the show.
      shown := None;
      ghost var done := [Released];
      if result.Success? {
        var imagePath := result.value;
        var copyToClipboard := config.copyToClipboard;
        var enablePreview := config.enablePreview;
        done := done + (if copyToClipboard then [Copied(imagePath)] else [])
                     + (if enablePreview then [Shown(imagePath)] else []);
        if enablePreview {
          var r := preview.ShowInBrowser(imagePath);
          shown := Some(r);
        }
      }
      screenshotInProgress, pending, effects := false, pending - 1, effects + done;
    }

    /** The Copy-to-Clipboard item: flag and check mark invert together, then the settings are saved. */
    method ToggleCopy()
      requires Valid()
      modifies this
      ensures Valid()
      ensures config == old(config).(copyToClipboard := !old(config.copyToClipboard))
      ensures saved == old(saved) + [config]
      ensures screenshotInProgress == old(screenshotInProgress) && effects == old(effects)
      ensures captureAutoSave == old(captureAutoSave) && captureDir == old(captureDir)
    {
      if copyChecked {
        config := config.(copyToClipboard := false);
        copyChecked := false;
      } else {
        config := config.(copyToClipboard := true);
        copyChecked := true;
      }
      saved := saved + [config];
    }

    /**
     * The Auto-Save item: a checked item always turns auto-save off; an
     * unchecked one turns it on only when the directory can be made, and stays
     * off otherwise. The settings are saved either way.
     */
    method ToggleAutoSave(dirOk: bool)
      requires Valid()
      modifies this
      ensures Valid()
      ensures old(config.autoSave) ==> !config.autoSave && !captureAutoSave
      ensures !old(config.autoSave) ==> config.autoSave == dirOk && captureAutoSave == dirOk
      ensures config == old(config).(autoSave := config.autoSave)
      ensures saved == old(saved) + [config]
      ensures screenshotInProgress == old(screenshotInProgress) && effects == old(effects)
    {
      if autoSaveChecked {
        config := config.(autoSave := false);
        captureAutoSave, captureDir := false, "";
        autoSaveChecked := false;
      } else if dirOk {
        config := config.(autoSave := true);
        captureAutoSave, captureDir := true, autoSaveDir;
        autoSaveChecked := true;
      }
      saved := saved + [config];
    }

    /**
     * The Enable-Preview item: turning it off shuts the server down and
     * disables "View Preview"; turning it on starts the server and enables it.
     * The history is untouched.
     */
    method TogglePreview()
      requires Valid()
      modifies this, preview
      ensures Valid()
      ensures config == old(config).(enablePreview := !old(config.enablePreview))
      ensures preview.serverStarted == config.enablePreview && viewPreviewEnabled == config.enablePreview
      ensures preview.serverCreated == (old(preview.serverCreated) || config.enablePreview)
      ensures preview.history == old(preview.history) && preview.latestImage == old(preview.latestImage)
      ensures preview.clients == old(preview.clients) && preview.queues == old(preview.queues)
      ensures preview.closed == old(preview.closed) && preview.nextChan == old(preview.nextChan)
      ensures preview.deleted == old(preview.deleted) && preview.windowsOpened == old(preview.windowsOpened)
      ensures preview.browserOpened == old(preview.browserOpened)
      ensures saved == old(saved) + [config]
      ensures screenshotInProgress == old(screenshotInProgress) && effects == old(effects)
      ensures captureAutoSave == old(captureAutoSave) && captureDir == old(captureDir)
    {
      if previewChecked {
        config := config.(enablePreview := false);
        previewChecked := false;
        preview.Shutdown();
        viewPreviewEnabled := false;
      } else {
        config := config.(enablePreview := true);
        previewChecked := true;
        preview.Start();
        viewPreviewEnabled := true;
      }
      saved := saved + [config];
    }

    /** `onExit`: the preview server stops, then the hotkey is unregistered. */
    method Exit(exitsInTime: bool) returns (w: Hotkey.WaitResult)
      requires Valid()
      modifies preview, hotkeys
      ensures !preview.serverStarted && !hotkeys.isRunning
      ensures preview.history == old(preview.history) && preview.latestImage == old(preview.latestImage)
      ensures preview.clients == old(preview.clients) && preview.queues == old(preview.queues)
      ensures preview.closed == old(preview.closed) && preview.nextChan == old(preview.nextChan)
      ensures preview.deleted == old(preview.deleted) && preview.windowsOpened == old(preview.windowsOpened)
      ensures preview.browserOpened == old(preview.browserOpened) && preview.serverCreated == old(preview.serverCreated)
      ensures hotkeys.currentHandler == old(hotkeys.currentHandler) && hotkeys.launched == old(hotkeys.launched)
      ensures old(hotkeys.isRunning) <==> w != Hotkey.NotRunning
      ensures hotkeys.events == old(hotkeys.events) + if old(hotkeys.isRunning) then [Hotkey.StoppedRunning] else []
      ensures hotkeys.threadID == old(hotkeys.threadID) && hotkeys.loopExitChan == old(hotkeys.loopExitChan)
      ensures hotkeys.nextChan == old(hotkeys.nextChan)
      ensures !old(hotkeys.isRunning) ==> hotkeys.loops == old(hotkeys.loops) && hotkeys.closedChans == old(hotkeys.closedChans)
      ensures old(hotkeys.isRunning) ==>
                var quit := old(hotkeys.threadID) != 0 && old(hotkeys.threadID) in old(hotkeys.loops);
                && hotkeys.loops == (if quit then old(hotkeys.loops) - {old(hotkeys.threadID)} else old(hotkeys.loops))
                && hotkeys.closedChans == (if quit then old(hotkeys.closedChans) + {old(hotkeys.loopExitChan)}
                                           else old(hotkeys.closedChans))
                && w == (if old(hotkeys.loopExitChan) in old(hotkeys.closedChans) || (quit && exitsInTime)
                         then Hotkey.LoopExited else Hotkey.TimedOut)
    {
      preview.Shutdown();
      w := hotkeys.Unregister(exitsInTime);
    }
  }

  /** A second press while a capture runs is dropped and leaves the gate closed. */
  method PressTwice(loaded: Result<Config.Config>) returns (first: bool, second: bool, stillBusy: bool)
    ensures first && !second && stillBusy
  {
    var app := new App(loaded, None, 0, Fail("refused"), 0, false, "");
    first := app.Trigger();
    second := app.Trigger();
    stillBusy := app.screenshotInProgress;
  }

  /** A failed capture reopens the gate with no clipboard or preview action, so the next press starts a capture. */
  method FailureReleasesGate(loaded: Result<Config.Config>, error: string)
    returns (shown: Option<Outcome>, busy: bool, again: bool)
    ensures shown == None && !busy && again
  {
    var app := new App(loaded, None, 0, Fail("refused"), 0, false, "");
    var _ := app.Trigger();
    shown := app.CaptureDone(Failure(error));
    busy := app.screenshotInProgress;
    again := app.Trigger();
  }
}
