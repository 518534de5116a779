# SnapHook in Dafny

A model of the screenshot tray tools SnapHook and SnapView for Windows, and of
the packages they are built from. Each part is stated and proved in Dafny:

- the preview server's image history and its viewer hub: the list of live
  `/events` channels, each with a bounded buffer;
- the global hotkey: parsing the hotkey, the registration state, and the
  `WM_HOTKEY` message loop;
- the single-flight capture gate and the menu toggles of the two tray
  applications;
- the 24-bit DIB that the clipboard code builds from a captured image;
- the selection of the display under the cursor, the guard conditions of one
  capture, and the cleanup of day-old temporary files.

Every locked section of the Go code is one atomic step of a method. A
goroutine that one step launches runs inside that step. The exception is the
capture goroutine of `handleScreenshot`: it is split into a `Trigger` step and
a `CaptureDone` step, so that other steps can run between them. Answers from
the operating system, the screenshot library, the clock and the file system
are taken as parameters:

- whether RegisterHotKey accepts;
- the loop thread's id;
- what GetMessageW returns;
- whether the loop exits within 3 seconds;
- cursor and display bounds;
- file creation results;
- `os.Stat` times.

Removed files are recorded in ghost logs (`deleted`, `cleaned`), and so are
browser launches (`windowsOpened`) and saved settings (`saved`).

Files:

- `wrappers.dfy`: `Option`, `Result` (a value or an error string) and
  `Outcome` (nil or an error).
- `decimal.dfy`: Go's `%d` printing and its `Sscanf("%d")` scanning of an
  `int`, and the proof that scanning a printed 64-bit number returns it.
- `preview.dfy`: the history functions, the `/image`, `/delete` and `/history`
  logic as functions, and the admission and broadcast rules of the hub. It also
  holds the `Server` class. Its fields are `history` (Go's `imageHistory`),
  `latestImage`, `serverCreated` (Go's `server != nil`), `serverStarted`,
  `browserOpened`, `clients`, each channel's buffer in `queues`, the closed
  channels in `closed`, and the next channel identity in `nextChan`. It also
  has the ghost logs `deleted` and `windowsOpened`.
- `hotkey.dfy`: `ParseHotkey` and the `MessageLoop` method. It also holds the
  `Manager` class. Its fields are `currentHandler`, `isRunning`, `threadID`,
  `loopExitChan`, the closed exit channels in `closedChans`, the next channel
  identity in `nextChan`, the threads pumping a loop in `loops`, the handler
  launches in `launched`, and the ghost event log `events`.
- `capture.dfy`: `DisplayAtCursor`, `CaptureScreen`, the temporary file name
  and the cleanup glob, and `CleanupOldTempFiles`.
- `dib.dfy`: the row stride, the header layout, the bottom-up BGR pixel
  layout, and the `ImageToDib` method that fills a zeroed `array` row by row.
- `config.dfy`: the settings record and the fallback used when loading fails.
- `snaphook.dfy`, `snapview.dfy`: the `App` class of each tray application.

## Model

| member | source | states |
|---|---|---|
| Decimal.FormatInt | internal/preview/server.go:313-320 | `%d` output is non-empty; it starts with `-` exactly for a negative number and is all digits exactly for a non-negative one |
| Decimal.ScanInt | internal/preview/server.go:176-177 | the scanned index is always a 64-bit `int`; a parameter with no digit leaves it 0 |
| Decimal.ScanFormatted | internal/preview/server.go:176-177 | scanning the `%d` text of any 64-bit integer gives that integer back |
| Config.LoadOrDefault | cmd/snaphook/main.go:52-56 | loaded settings are used as they are; on a load error the settings are hotkey "Ctrl+Shift+S" with every flag false |
| Config.DefaultIsUsable | cmd/snaphook/main.go:52-56 | the fallback hotkey parses to modifiers 0x4006 and key 0x53, and no feature is on |
| Hotkey.ParseHotkey | internal/hotkey/hotkey_windows.go:43-61 | succeeds exactly for "Ctrl+Shift+S", "Ctrl+Alt+S" and "PrintScreen", with 0x4006/0x53, 0x4003/0x53 and 0x4000/0x2C; MOD_NOREPEAT is always set; any other text fails with "unsupported hotkey: " and the text |
| Hotkey.ExitIndex | internal/hotkey/hotkey_windows.go:117-132 | the position of the first message that ends the loop (a result of 0 or the invalid handle, or WM_QUIT); no earlier message ends it |
| Hotkey.MessageLoop | internal/hotkey/hotkey_windows.go:101-134 | exits exactly when some message ends the loop, consuming messages up to and including that one; launches the non-nil handler once per WM_HOTKEY before it, and a nil handler never |
| Hotkey.CountHotkeysAppend | internal/hotkey/hotkey_windows.go:109-133 | the number of WM_HOTKEY messages in a stream is the sum over any split of it |
| Hotkey.ExitIndexAppend | internal/hotkey/hotkey_windows.go:109-133 | after a run of messages that does not end the loop, the exit point of the longer stream moves by that run's length |
| Hotkey.Manager.constructor | internal/hotkey/hotkey_windows.go:36-41 | starts with no handler, not running, thread id 0, a nil exit channel and no loop |
| Hotkey.Manager.RegisterHotkey | internal/hotkey/hotkey_windows.go:63-99 | a parse failure changes nothing; otherwise the state is running with a fresh exit channel whether or not the OS accepts; an accepted registration starts a loop on the given thread, and a refusal returns "failed to register hotkey: " with the OS error |
| Hotkey.Manager.Pump | internal/hotkey/hotkey_windows.go:93-95 | the recorded loop dispatches the current handler once per WM_HOTKEY; on exit the loop ends and its exit channel is closed |
| Hotkey.Manager.UnregisterHotkey | internal/hotkey/hotkey_windows.go:136-162 | nothing when not running; otherwise not running afterwards; WM_QUIT reaches only a recorded non-zero thread; the wait ends with LoopExited when the channel is closed in time, and TimedOut otherwise |
| Hotkey.Manager.Register | internal/hotkey/hotkey.go:5-8 | the handler is replaced first, even when parsing fails; then `register` runs with no check for a running hotkey |
| Hotkey.Manager.Unregister | internal/hotkey/hotkey.go:10-12 | the same state change as `unregister`, so a second call does nothing |
| Hotkey.Manager.ChangeHotkey | internal/hotkey/hotkey.go:14-18 | the event order is stop (if it was running), then set the handler, then start (if the new hotkey parses); afterwards it is running exactly when the new hotkey parses; a running loop on a recorded thread is sent WM_QUIT, so its thread leaves `loops` and its exit channel is closed; the new loop's thread, exit channel and channel counter are those `register` gives, and a hotkey that does not parse leaves them as they were |
| Hotkey.RefusalThenUnregister | internal/hotkey/hotkey_windows.go:85-89 | a refused registration leaves the state running with an exit channel that is never closed, so the later unregister times out |
| Hotkey.BadHotkeyThenGoodHotkey | internal/hotkey/hotkey_windows.go:64-67 | an unsupported hotkey fails before any state change, so a later supported one registers as from a fresh start |
| Capture.FirstContaining | internal/capture/capture_windows.go:43-48 | the smallest index whose half-open bounds contain the point, or none when no display contains it |
| Capture.DisplayAtCursor | internal/capture/capture_windows.go:36-51 | the first display containing the cursor; 0 when none does or the cursor cannot be read |
| Capture.JoinPath | internal/capture/capture_windows.go:69 | the joined path ends with the name; with a directory it starts with the directory followed by one separator, and it has no other characters |
| Capture.TempName | internal/capture/capture_windows.go:69 | "snapview-", then the decimal nanosecond count, then ".png" |
| Capture.TempFileMatchesPattern | internal/capture/capture_windows.go:104-107 | every temporary file a capture names matches the cleanup glob `snapview-*.png` in the same directory |
| Capture.CaptureScreen | internal/capture/capture_windows.go:53-102 | no displays is an error before any grab; otherwise the display under the cursor (or display 0) is grabbed. Grab, create and encode errors carry their messages. The permanent copy is written only with auto-save on and a non-empty directory, and a failure to create it is ignored. A success returns the temporary path, which the cleanup matches |
| Capture.CursorDisplay | internal/capture/capture_windows.go:36-51 | the display a capture grabs is the first containing the cursor, or display 0 when the cursor cannot be read or no display contains it; no display before it contains the cursor |
| Capture.StalePaths | internal/capture/capture_windows.go:112-117 | the removed paths are at most the matched files |
| Capture.StalePathsMembership | internal/capture/capture_windows.go:113-117 | a path is removed exactly when a matched file with that path could be stat'ed and is strictly more than 24 hours old |
| Capture.CleanupOldTempFiles | internal/capture/capture_windows.go:104-119 | a failed glob removes nothing; otherwise the stale matches are removed in glob order |
| Dib.RowSize | internal/clipboard/clipboard_windows.go:102 | the row stride is a multiple of 4 that holds three bytes per pixel, with fewer than 4 bytes of padding |
| Dib.RowSizeSmallest | internal/clipboard/clipboard_windows.go:102 | no smaller multiple of 4 holds the row |
| Dib.Le32Decodes | internal/clipboard/clipboard_windows.go:120 | a little-endian 32-bit field reads back as its value modulo 2^32 |
| Dib.InfoHeader | internal/clipboard/clipboard_windows.go:105-120 | the serialised header is 40 bytes |
| Dib.InfoHeaderFields | internal/clipboard/clipboard_windows.go:105-120 | the header reads back as Size 40, the width and height, 1 plane, 24 bits, compression 0 and SizeImage = stride × height, all modulo 2^32; bytes 24 to 39 are zero |
| Dib.StoredRows | internal/clipboard/clipboard_windows.go:122-131 | n stored rows take n strides |
| Dib.StoredPixel | internal/clipboard/clipboard_windows.go:125-129 | bytes 3x to 3x+2 of the stored row for image row y are the high bytes of blue, green and red of pixel (x, y) |
| Dib.PixelPlacement | internal/clipboard/clipboard_windows.go:123-129 | pixel (x, y) sits at (height-1-y)·stride + 3x + c of the pixel data, inside it, as B, G, R for c = 0, 1, 2 |
| Dib.PaddingIsZero | internal/clipboard/clipboard_windows.go:122 | every padding byte of every row is zero |
| Dib.RowFits | internal/clipboard/clipboard_windows.go:122-126 | each stored row ends inside the pixel buffer |
| Dib.StorePixel | internal/clipboard/clipboard_windows.go:125-129 | the three writes of one pixel put its B, G and R bytes at its offset and change nothing else |
| Dib.StoreRow | internal/clipboard/clipboard_windows.go:124-130 | after the inner loop for image row y, the buffer holds the stored rows so far and is zero after them |
| Dib.ImageToDib | internal/clipboard/clipboard_windows.go:97-135 | the output is 40 + stride × height bytes: the header, then every stored row bottom-up |
| Preview.AppendImage | internal/preview/server.go:643-651 | the new path is last and the list stays within 50; the oldest entry is evicted exactly when 50 were held; the evicted entry followed by the new list is the old list plus the path |
| Preview.AppendAllConserves | internal/preview/server.go:643-651 | over any series of appends, the evicted paths followed by the survivors are the input in order |
| Preview.AppendAllFromEmpty | internal/preview/server.go:643-651 | from an empty history, N appends keep the last min(N, 50) paths and evict the first max(0, N-50) |
| Preview.RemoveAt | internal/preview/server.go:550 | removing position i keeps the earlier entries, shifts the later ones down by one, and loses exactly that one element |
| Preview.SelectImage | internal/preview/server.go:171-182 | without `index` the latest image; with one, a history entry or the empty path |
| Preview.ImageAtIndex | internal/preview/server.go:174-178 | `index=i` with i a history position selects exactly entry i |
| Preview.ImageOutOfRange | internal/preview/server.go:174-178 | a negative or too large index selects the empty path |
| Preview.DeleteIndex | internal/preview/server.go:542-551 | the new list and the removed path together are the old list as a multiset, one element shorter when something was removed |
| Preview.DeleteAtIndex | internal/preview/server.go:545-550 | an in-range index removes exactly that entry; an out-of-range one changes nothing |
| Preview.NonNumericIndexDeletesOldest | internal/preview/server.go:544-546 | an index with no digit scans as 0 and deletes the oldest entry |
| Preview.Gallery | internal/preview/server.go:306-320 | the heading is "len/50"; thumbnail k links to position len-1-k and is labelled len-k; both labels scan back to those numbers |
| Preview.ThumbsScanBack | internal/preview/server.go:313-320 | the printed index and number of every thumbnail scan back to the position and the number they were made from |
| Preview.AdmitClient | internal/preview/server.go:592-599 | the new channel goes last; the oldest is dropped exactly when 5 are connected; the count stays within 5; the dropped one followed by the new list is the old list plus the new channel |
| Preview.AdmitKeepsDistinct | internal/preview/server.go:592-599 | admitting a channel not yet connected keeps the list free of repeats and admits no other channel |
| Preview.SubscribeKeepsChannels | internal/preview/server.go:592-599 | admission, together with the new empty buffer and the closing of the dropped channel, keeps the viewer-channel invariant |
| Preview.IndexOf | internal/preview/server.go:604-608 | the position of the first occurrence, or the length when there is none |
| Preview.RemoveFirst | internal/preview/server.go:603-610 | removes exactly the first occurrence when the channel is present, keeping the others in order, and changes nothing otherwise |
| Preview.RemoveFirstDistinct | internal/preview/server.go:603-610 | in a list without repeats, removal drops the channel, keeps every other one, and keeps the list free of repeats |
| Preview.RemoveClient | internal/preview/server.go:604-609 | the search loop of the cleanup removes exactly the first occurrence of the channel and keeps the others in order |
| Preview.UnsubscribeKeepsChannels | internal/preview/server.go:602-612 | dropping a channel from the list and closing it keeps the viewer-channel invariant |
| Preview.RemoveFirstSubset | internal/preview/server.go:604-609 | removal keeps only channels that were connected, and never lengthens the list |
| Preview.Fanout | internal/preview/server.go:665-675 | a broadcast neither adds nor removes a channel |
| Preview.Broadcast | internal/preview/server.go:669-674 | the send loop over the client list gives the broadcast result |
| Preview.FanoutEffect | internal/preview/server.go:665-675 | over distinct channels: every connected channel with fewer than 10 buffered messages gains the message; a full or disconnected channel is unchanged; no buffer exceeds 10 |
| Preview.Server.constructor | internal/preview/server.go:19-31 | empty history, no latest image, no viewer, no server |
| Preview.Server.Start | internal/preview/server.go:33-36 | afterwards the server runs; nothing else changes |
| Preview.Server.Shutdown | internal/preview/server.go:734-739 | stops the server only if one was ever built; nothing else changes |
| Preview.Server.ShowInBrowser | internal/preview/server.go:642-663 | latest image and history are updated and the evicted file deleted even without a server, which then fails with "preview server not started"; a started server broadcasts "update" and opens a window exactly when no viewer is connected |
| Preview.Server.RecordImage | internal/preview/server.go:643-652 | the path becomes the latest image and is appended with eviction; an evicted path is deleted |
| Preview.Server.NotifyClients | internal/preview/server.go:665-675 | the buffers become the broadcast result; the client list and every other field are unchanged |
| Preview.Server.TryOpenBrowser | internal/preview/server.go:693-707 | a window is opened exactly when no viewer is connected |
| Preview.Server.ImageRequest | internal/preview/server.go:166-200 | every failure is a 404; a PNG is sent exactly when a path is selected and the file opens, and it is the selected path: with `index` a history entry, without it the latest image |
| Preview.Server.ServesHistoryEntry | internal/preview/server.go:171-200 | `/image?index=i` for a position i of the history serves entry i when its file opens, and answers 404 "Image not found" when it does not |
| Preview.Server.HistoryPage | internal/preview/server.go:207-211 | the page covers a copy of the whole history, and thumbnail k's `/image` link selects the k-th newest entry |
| Preview.Server.HandleDelete | internal/preview/server.go:531-556 | 405 for a method other than POST, and 400 without `index`, both changing nothing; otherwise success with the history and the deletion log as `DeleteIndex` says, and `latestImage` untouched |
| Preview.Server.RemoveEntry | internal/preview/server.go:545-550 | the entry leaves the history, later ones shift down, and its file is deleted |
| Preview.Server.HandleClearAll | internal/preview/server.go:558-574 | 405 for a method other than POST; otherwise every history file is deleted in order, and the history and the latest image are emptied |
| Preview.Server.Subscribe | internal/preview/server.go:592-600 | a fresh channel with an empty buffer joins last; with 5 connected, the oldest is closed and dropped first |
| Preview.Server.Unsubscribe | internal/preview/server.go:602-612 | the first occurrence of the channel leaves the list, and the channel is closed even if an eviction closed it already |
| Preview.Server.SafeClose | internal/preview/server.go:727-732 | closing is idempotent: the channel is closed afterwards and nothing else changes |
| Preview.Server.Receive | internal/preview/server.go:616-627 | a buffered message is taken and framed even after close; a closed, drained channel ends the stream; an open, empty one waits |
| SnapHook.SuccessEffects | cmd/snaphook/main.go:213-228 | the gate opens first; the copy happens exactly when CopyToClipboard is set and the preview exactly when EnablePreview is set, in that order, each at most once |
| SnapHook.App.constructor | cmd/snaphook/main.go:50-105 | loaded or fallback settings; stale temporary files removed; `handleScreenshot` registered as the handler, and running exactly when the hotkey parses; auto-save on exactly when set and its directory is made; the server started exactly when the preview is enabled |
| SnapHook.App.Trigger | cmd/snaphook/main.go:191-202 | starts a capture exactly when none is in progress; the flag is set either way |
| SnapHook.App.CaptureDone | cmd/snaphook/main.go:203-228 | the flag is reset on both paths; an error, or a success with the preview off, leaves the preview server unchanged; a success copies and shows the image as the settings read after the reset say; a shown image finds the server started within this one step, so it is recorded with its eviction deleted, "update" goes to every viewer with room, a window opens when no viewer is connected, and the viewer list stays as it was |
| SnapHook.App.ToggleCopy | cmd/snaphook/main.go:112-124 | the flag and its check mark invert together, and the settings are saved |
| SnapHook.App.ToggleAutoSave | cmd/snaphook/main.go:125-143 | a checked item turns auto-save off; an unchecked one turns it on exactly when the directory can be made; the settings are saved either way |
| SnapHook.App.TogglePreview | cmd/snaphook/main.go:144-160 | the flag inverts; the server and "View Preview" follow it; turning it on builds the server, turning it off keeps the built one; the history, latest image, viewers, their queues and closed channels, the deletion log and the window count are untouched; the settings are saved |
| SnapHook.App.Exit | cmd/snaphook/main.go:183-186 | the server stops, then the hotkey is unregistered; the history, latest image, viewers, deletion log and hotkey handler stay as they were; a running loop on a recorded thread is sent WM_QUIT, so its thread leaves `loops` and its exit channel is closed; the result is LoopExited when the channel was closed already or the quit is handled in time, TimedOut otherwise, and NotRunning when no hotkey ran; the thread id, exit channel and channel counter stay as they were |
| SnapHook.PressTwice | cmd/snaphook/main.go:191-198 | a second press during a capture is dropped and leaves the gate closed |
| SnapHook.FailureReleasesGate | cmd/snaphook/main.go:204-210 | a failed capture reopens the gate with nothing shown, so the next press starts a capture |
| SnapView.SuccessEffects | cmd/snapview/main.go:152-160 | the gate opens first; the copy happens exactly when CopyToClipboard is set; the preview always comes last; nothing else is in the sequence |
| SnapView.App.constructor | cmd/snapview/main.go:27-65 | loaded or fallback settings; the handler registered; auto-save on exactly when set and its directory is made; no preview server |
| SnapView.App.Trigger | cmd/snapview/main.go:130-141 | starts a capture exactly when none is in progress; the flag is set either way |
| SnapView.App.CaptureDone | cmd/snapview/main.go:142-161 | the flag is reset on both paths; an error leaves the preview server unchanged; every success is appended to the preview history, with its eviction deleted, and then refused because no server was started, so no viewer is notified and no window opens |
| SnapView.App.ToggleCopy | cmd/snapview/main.go:72-82 | the flag and its check mark invert together, and the settings are saved |
| SnapView.App.ToggleAutoSave | cmd/snapview/main.go:83-99 | a checked item turns auto-save off; an unchecked one turns it on exactly when the directory can be made |
| SnapView.App.Exit | cmd/snapview/main.go:122-125 | the server is shut down, then the hotkey is unregistered; the history, latest image, viewers, deletion log and hotkey handler stay as they were; a running loop on a recorded thread is sent WM_QUIT, so its thread leaves `loops` and its exit channel is closed; the result is LoopExited when the channel was closed already or the quit is handled in time, TimedOut otherwise, and NotRunning when no hotkey ran; the thread id, exit channel and channel counter stay as they were |
| SnapView.TwoCaptures | cmd/snapview/main.go:141-161 | two successful captures are both refused by the preview, and both end up in its history, oldest first |

## Left out

- The HTML, CSS and JavaScript page bodies, the `/` and `/settings`
  handlers, and the keystroke script. They are page text; `/history` is
  reduced to its heading and its thumbnail labels.
- The HTTP server lifecycle and response writing: `ListenAndServe`,
  `server.Close`, headers, `io.Copy`, `Flush`, and request contexts. A
  viewer's disconnect is the `Unsubscribe` step.
- `lastRequest` and its mutex. No shown code reads it.
- `OpenBrowser`, `OpenSettings` and `openBrowserWindow` launch a browser
  through `exec.Command`. A launch is counted in `windowsOpened`. The "View
  Preview" click is not modelled.
- `hotkeyChangeChan`. No shown code reads it.
- Goroutines and mutexes. Each locked section is one step. The goroutine of
  `tryOpenBrowser` runs inside `ShowInBrowser`. The registration goroutine
  runs inside `RegisterHotkey`. Its later `threadID` write is taken as
  happening before `register` returns.
- A second unguarded `Register` leaves the earlier loop in `loops`. Only the
  loop whose thread id is recorded is ever pumped.
- The Win32 calls of the hotkey code enter as parameters: whether
  RegisterHotKey accepts, the thread id GetCurrentThreadId gives, the
  GetMessageW results, and whether the loop's exit arrives within 3 seconds.
  The operating system's own table of registered hotkeys is not modelled, so
  UnregisterHotKey has no counterpart. PostThreadMessageW is taken to always
  deliver WM_QUIT to the live loop of the recorded thread.
- GetCursorPos is the `cursor` parameter of `CaptureScreen`. The clipboard
  code of `copyImage` is not modelled; its start is the `Copied` effect.
- The screenshot library and PNG encoding. Their results are parameters of
  `CaptureScreen`.
- `filepath.Join` is modelled for a clean directory and a plain file name,
  without Go's path cleaning. `os.Stat`, `filepath.Glob` and `os.Remove` are
  answers or ghost logs.
- `getAutoSaveConfig` is not part of this model. Its result is the `autoSave`
  and `saveDir` parameters of `CaptureScreen`.
- `capture.CaptureScreen` is not called from within `CaptureDone`. The app
  receives its result as the parameter `result`.
- Config persistence: JSON, home-directory paths, `EnsureAutoSaveDir` and
  save errors. A save is the ghost `saved` log, and directory creation is the
  `dirOk` parameter.
- internal/config/config.go declares a second `Config` without
  `EnablePreview` in the same package. The model follows the internal/config/types.go shape that
  both applications use.
- The "Start on Boot" item, internal/startup/startup_windows.go, the
  single-instance mutex and the tray wiring. They are operating-system and UI
  plumbing.
- The two applications call `preview.Show`, which internal/preview/server.go
  does not define. It is modelled by `ShowInBrowser`, the operation there that
  appends and displays.
- Dib.ImageToDib: `width*3` and `rowSize*height` are unbounded here. The header
  stores the low 32 bits of width, height and size, as Go's `int32` and
  `uint32` conversions do, and the pixel buffer has the exact size. Go's `int`
  overflow for images over 2^63 bytes is not modelled.
- SnapHook.App.CaptureDone: one step covers both the settings read under the
  lock and the later `preview.Show`. In Go the lock is released between the
  two, so an Enable-Preview toggle can shut the server down in between, and
  Show then fails with "preview server not started". That interleaving is not
  modelled.
- The model assumes a 64-bit platform. Go's `int` is 64 bits wide there, which
  gives the range of `ScanInt`, and the invalid handle that ends the message
  loop is 2^64 - 1.
- Capture.CleanupOldTempFiles: the age is `now - modTime` on unbounded
  integers. Go's `time.Sub` saturates at about 292 years, and that saturation
  is not modelled.

Behaviour of the code that a reader may not expect, kept by the model:

- a refused registration leaves `isRunning` true;
- `Register` does not reject a running hotkey;
- `/delete` leaves `latestImage` alone, even when it names the deleted file;
- SnapView never starts the preview server, so every `Show` is refused after
  the history is updated;
- after SnapHook's fallback settings, every flag is off.
