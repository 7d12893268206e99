# EIP status panel — a Dafny model

This project models the status panel of the LEAP Bitmask desktop client: the
widget that shows the state of EIP (the client's VPN-like "Encrypted Internet
Proxy") and carries its on/off toggle slider. The Qt widgets are flattened
into plain fields of one class, `StatusPanel.StatusPanelWidget`:

- the slider's value, handle position, "handle held" flag, style tag
  (`on`, `off` or `inprogress`), enabled flag, and the remembered previous
  value `eipswitchVal`;
- the EIP label, the tray tooltip, the global status label and whether the
  global status box is visible;
- the status label's icon (the pixmap beside the EIP status text), the
  tray icon and the tray action's text, and the two icon sets chosen for
  the host platform;
- what the `EIPToggledOn` and `EIPToggledOff` signals are connected to
  (`start_eip`, `stop_eip`), a log of every emitted signal, and the queue of
  actions that zero-delay timers post to the event loop.

Each method's `modifies` clause names exactly the fields it may change, so
every other field is known to be unchanged. The pure decisions the widget
takes live in module `StatusLogic`: the style tag and its stylesheet, the
status-step → icon class → tray message mapping, the status-step → label
table, the platform icon table and the red error markup.

The icon mapping reproduces the code as written. Its second test is
`status in ("CONNECTED")`; the parentheses do not make a tuple, so this is
Python's substring test on the string `"CONNECTED"`. `StatusLogic.InString`
models that test, `StatusLogic.InStringIff` ties it to an explicit occurrence
index, and `StatusLogic.ConnectedIconIff` proves that any substring of
`"CONNECTED"` — the empty string, `"CONNECT"`, `"NECTED"` — selects the
connected icon, while `"CONNECTING"` and `"ALREADYRUNNING"` select the error
icon (`StatusLogic.IconKindExamples`).

Three client methods at the end of `status_panel.dfy` (`ConnectAndDisconnect`,
`AlreadyRunningIsDeferred`, `ReleaseAtMidpoint`) drive the widget through
sessions, with the slider enabled before any user input reaches it, and
assert what the contracts let a caller conclude.

## Model

| member | source | states |
|---|---|---|
| `StatusPanel.StatusPanelWidget.constructor` | src/leap/gui/statuspanel.py:75-98 | starts with style "off", EIPToggledOn forwarded to start_eip only, slider disabled at 0, status box hidden, icon sets from the platform table, nothing emitted or queued |
| `StatusPanel.StatusPanelWidget.SliderEIPToggleChangeValue` | src/leap/gui/statuspanel.py:115-128 | `eipswitchVal` becomes the slider value from before the call; the slider takes the new value (clamped to 0..100); EIPToggledOn is emitted iff the value equals 100, otherwise EIPToggledOff, each followed by the signals it is connected to |
| `StatusPanel.StatusPanelWidget.SliderEIPToggleOn` | src/leap/gui/statuspanel.py:130-135 | ends with value and handle at 100, style "inprogress", having emitted EIPToggledOn |
| `StatusPanel.StatusPanelWidget.SliderEIPToggleConnected` | src/leap/gui/statuspanel.py:137-142 | ends with value and handle at 100, style "on", having emitted EIPToggledOn |
| `StatusPanel.StatusPanelWidget.SliderEIPToggleOff` | src/leap/gui/statuspanel.py:144-149 | ends with value and handle at 0, style "off", having emitted EIPToggledOff |
| `StatusPanel.StatusPanelWidget.ChangeEIPToggleOnClicked` | src/leap/gui/statuspanel.py:151-167 | called with the value the slider already holds (as valueChanged does); while the handle is held nothing changes; otherwise snaps to 100 if the clicked value exceeds `eipswitchVal`, else to 0, with style "inprogress" and the matching emission |
| `StatusPanel.StatusPanelWidget.ChangeEIPToggleOnReleased` | src/leap/gui/statuspanel.py:169-184 | a position strictly above 50 snaps to 100; 50 or less snaps to 0 after zeroing the slider, so `eipswitchVal` ends as 0; style "inprogress" either way |
| `StatusPanel.StatusPanelWidget.PressHandle` | src/leap/gui/statuspanel.py:157-158 | only an enabled slider can be grabbed; the handle is then held, the state the click handler tests |
| `StatusPanel.StatusPanelWidget.MoveHandle` | src/leap/gui/statuspanel.py:92-93 | a drag moves the held handle and (with tracking) the value; the click handler that valueChanged reaches does nothing while the handle is held |
| `StatusPanel.StatusPanelWidget.ReleaseHandle` | src/leap/gui/statuspanel.py:94-95 | releasing runs the release handler: above 50 the slider ends at 100 with EIPToggledOn and its connections emitted, otherwise at 0 with EIPToggledOff and its connections, `eipswitchVal` 0 and the handle with the value; style "inprogress" |
| `StatusPanel.StatusPanelWidget.ClickGroove` | src/leap/gui/statuspanel.py:92-93 | a click on an enabled slider's groove moves the slider; if the value changed, the click handler runs with the new value, `eipswitchVal` takes that value, and the slider snaps to 100 if it exceeds the previously remembered value, else to 0, with the matching emission; an unchanged value changes nothing |
| `StatusPanel.StatusPanelWidget.SetEIPToggleCustomStyle` | src/leap/gui/statuspanel.py:197-209 | the style tag is the one chosen from `on` and `inprogress`, and the template's tag assertion holds for it |
| `StatusPanel.StatusPanelWidget.SetStartStopEnabled` | src/leap/gui/statuspanel.py:211-219 | the slider's enabled flag becomes the given value |
| `StatusPanel.StatusPanelWidget.SetSystray` | src/leap/gui/statuspanel.py:253-261 | the tray icon is available to later status updates |
| `StatusPanel.StatusPanelWidget.SetActionEipStatus` | src/leap/gui/statuspanel.py:263-271 | the tray action is available to later icon updates |
| `StatusPanel.StatusPanelWidget.SetGlobalStatus` | src/leap/gui/statuspanel.py:273-287 | the global label shows the status, in red bold only for an error, and the status box is shown |
| `StatusPanel.StatusPanelWidget.HideStatusBox` | src/leap/gui/statuspanel.py:289-293 | the status box is hidden |
| `StatusPanel.StatusPanelWidget.SetEipStatus` | src/leap/gui/statuspanel.py:295-310 | the tray tooltip gets the raw status; the EIP label gets it, in red only for an error |
| `StatusPanel.StatusPanelWidget.EipPreUp` | src/leap/gui/statuspanel.py:312-318 | hides the status box and disables the slider |
| `StatusPanel.StatusPanelWidget.EipStarted` | src/leap/gui/statuspanel.py:320-330 | EIPToggledOn has no connections and stop_eip is appended to EIPToggledOff; value and handle are at 100 with style "inprogress", and its own emission is EIPToggledOn alone, requesting no start_eip |
| `StatusPanel.StatusPanelWidget.EipStopped` | src/leap/gui/statuspanel.py:332-342 | mirror image: EIPToggledOff has no connections, start_eip appended to EIPToggledOn, value and handle at 0 with style "off", emission EIPToggledOff alone |
| `StatusPanel.StatusPanelWidget.SetEipStatusIcon` | src/leap/gui/statuspanel.py:404-426 | status label icon, tray icon and tray action text all come from the same icon class of the status |
| `StatusPanel.StatusPanelWidget.UpdateVpnState` | src/leap/gui/statuspanel.py:370-402 | icons from the icon mapping; label and tooltip from the label table or untouched on ALREADYRUNNING; only CONNECTED moves value and handle to 100 with style "on" and enables it, every other status leaves slider, style and enabling alone; ALREADYRUNNING queues stop_eip and then the global error message, in that order |
| `StatusPanel.StatusPanelWidget.RunNextDeferred` | src/leap/gui/statuspanel.py:396-400 | the event loop runs the oldest queued action: stop_eip is emitted, or the global status is shown with its box |
| `StatusLogic.ToggleStyleTag` | src/leap/gui/statuspanel.py:197-207 | the tag is always one of on/off/inprogress; it is "inprogress" iff `inprogress`, regardless of `on`; otherwise "on" iff `on` |
| `StatusLogic.ToggleStyle` | src/leap/gui/statuspanel.py:186-195 | a stylesheet is produced iff the tag is one of the three accepted tags, and it embeds that tag's groove image |
| `StatusLogic.GrooveImageInjective` | src/leap/gui/statuspanel.py:45 | distinct tags substitute to distinct stylesheets |
| `StatusLogic.StyleTagAlwaysAccepted` | src/leap/gui/statuspanel.py:193-208 | the assertion in the stylesheet getter never fails for a tag the setter chooses |
| `StatusLogic.GrooveImage` | src/leap/gui/statuspanel.py:45 | the tag is embedded intact between the image path prefix and ".png" |
| `StatusLogic.InString` | src/leap/gui/statuspanel.py:419 | Python's string-in-string test: true only if the status is no longer than the string, always for a prefix, always for the empty status |
| `StatusLogic.StatusIconKind` | src/leap/gui/statuspanel.py:411-422 | the connecting icon exactly for the five connecting steps; the connected icon only for a status no longer than "CONNECTED", and always for the empty status |
| `StatusLogic.InStringIff` | src/leap/gui/statuspanel.py:419 | the substring test holds iff the status occurs at some index of the string |
| `StatusLogic.ConnectingStepsNotInConnected` | src/leap/gui/statuspanel.py:414-419 | none of the five connecting steps is a substring of "CONNECTED", so the two branches never overlap |
| `StatusLogic.ConnectedIconIff` | src/leap/gui/statuspanel.py:419-422 | the connected icon is chosen iff the status is a substring of "CONNECTED", the empty string included |
| `StatusLogic.ErrorIconIff` | src/leap/gui/statuspanel.py:411-413 | the error icon is chosen iff the status is neither a connecting step nor a substring of "CONNECTED" |
| `StatusLogic.IconKindExamples` | src/leap/gui/statuspanel.py:411-422 | CONNECTED, "", CONNECT and NECTED give the connected icon; ALREADYRUNNING and CONNECTING the error icon; RECONNECTING the connecting icon |
| `StatusLogic.TrayMessage` | src/leap/gui/statuspanel.py:413-420 | "Turning ON" exactly for the connecting icon, "Encryption is ON" exactly for the connected icon, "Encryption is OFF" exactly for the error icon |
| `StatusLogic.TrayMessageTable` | src/leap/gui/statuspanel.py:411-422 | over every status: "Turning ON" iff one of the five connecting steps, "Encryption is ON" iff a substring of "CONNECTED", "Encryption is OFF" iff neither |
| `StatusLogic.TrayMessageInjective` | src/leap/gui/statuspanel.py:413-420 | the tray message determines the icon class it was chosen with |
| `StatusLogic.EipIcons` | src/leap/gui/statuspanel.py:229-243 | tray icons are the plain files on Linux or Windows and the `-light` files otherwise; status label icons are the plain files only on Windows (Linux tested first) |
| `StatusLogic.EipIconsDistinguishKinds` | src/leap/gui/statuspanel.py:229-251 | on every platform, both sets hold three distinct images, and plain-file status label icons come only with plain-file tray icons |
| `StatusLogic.StateLabel` | src/leap/gui/statuspanel.py:378-402 | fixed labels for CONNECTED, AUTH, GET_CONFIG, WAIT, ASSIGN_IP; no label change iff ALREADYRUNNING; any other status verbatim |
| `StatusLogic.ReconnectingShownVerbatim` | src/leap/gui/statuspanel.py:401-402 | RECONNECTING has no fixed label and is shown verbatim, though it gives the connecting icon |
| `StatusLogic.EipLabelText` | src/leap/gui/statuspanel.py:308-309 | plain status when not an error; otherwise the status intact between `<font color='red'>` and `</font>` |
| `StatusLogic.GlobalLabelText` | src/leap/gui/statuspanel.py:284-285 | plain status when not an error; otherwise the status intact between red bold open and close tags |
| `StatusLogic.ErrorMarkupVisible` | src/leap/gui/statuspanel.py:308-309 | an error label never equals the plain label of the same status |
| `StatusLogic.EipLabelTextInjective` | src/leap/gui/statuspanel.py:308-310 | with the same error flag, equal labels come from equal statuses |

## Left out

- src/leap/bitmask/services/mail/imapcontroller.py: every branch calls into the mail module, a Twisted listening port or a threading condition; there is no logic of its own to model.
- `update_vpn_status` (src/leap/gui/statuspanel.py:353-368): float conversion and `%12.2f` formatting of the traffic counters.
- `set_provider` and `set_icon`: plain label setters; `set_icon` is folded into `SetEipStatusIcon`.
- The icon table's docstring calls the `-light` files "dark" (Mac, and the main-window panel on Linux) and the plain files "light"; the model follows the files the code picks and names the sets by file, not by the docstring.
- Pixmaps and icons are their image paths; the stylesheet is reduced to the groove image its tag selects; `self.tr` is taken as the English literal.
- Qt's re-entrant dispatch: a `setValue` that changes the value makes Qt call the click handler again from inside the change; the model treats the click and release handlers as events the caller invokes, and `SliderEIPToggleChangeValue` does not re-enter them. In the program that nested call leaves `eipswitch_val` at the new value and emits EIPToggledOn or EIPToggledOff a second time, so a groove click or release that moves the slider can request start_eip or stop_eip twice; the model emits once. Because the remembered value then sits at the snapped end (100 or 0) rather than at the clicked value, the program can send the next groove click the other way: after a click at 30 from 0 the model remembers 30 and a click at 90 turns EIP on again, where the program remembers 100 and the click at 90 turns it off.
- The slider range 0..100 comes from a UI definition that is not part of this model; it is assumed, and `setValue` clamps to it. Qt's default tracking (value follows a dragged handle) is assumed.
- Initial label and icon texts come from the same UI definition; the constructor starts them empty.
- The timer event loop is only the ordered `pending` queue; `RunNextDeferred` runs its head.
- Signal connections other than EIPToggledOn/EIPToggledOff forwarding to start_eip/stop_eip (what the application connects to start_eip and stop_eip) are outside this widget.
- Runtime type assertions on argument types are enforced by Dafny's types.
- `SetEipStatus` requires the tray icon to have been set, and `SetEipStatusIcon` and `UpdateVpnState` require both the tray icon and the tray action; the source raises on a missing one, and `set_eip_status_icon` has already replaced the status label icon before it fails on the tray.
