/**
 * The settings both tray applications read at start-up and change from the
 * menu (the `Config` record of internal/config/types.go), and the fallback the
 * applications use when loading them fails.
 */
module Config {
  import opened Wrappers
  import Hotkey

  datatype Config = Config(hotkey: string, autoSave: bool, copyToClipboard: bool, enablePreview: bool)

  const DEFAULT_HOTKEY: string := "Ctrl+Shift+S"

  /** The settings an application runs with: the loaded ones, or the default hotkey with every flag off. */
  function LoadOrDefault(loaded: Result<Config>): (c: Config)
    ensures loaded.Success? ==> c == loaded.value
    ensures loaded.Failure? ==> c == Config(DEFAULT_HOTKEY, false, false, false)
  {
    match loaded
    case Success(cfg) => cfg
    case Failure(_) => Config(DEFAULT_HOTKEY, false, false, false)
  }

  /** The fallback settings name a hotkey the hotkey parser accepts, with no extra feature on. */
  lemma DefaultIsUsable(error: string)
    ensures var c := LoadOrDefault(Failure(error));
            && Hotkey.ParseHotkey(c.hotkey) == Success(Hotkey.Binding(0x4006, 0x53))
            && !c.autoSave && !c.copyToClipboard && !c.enablePreview
  {
    var c := LoadOrDefault(Failure(error));
    assert c.hotkey == "Ctrl+Shift+S";
  }
}
