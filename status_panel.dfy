/** The EIP status panel widget with its Qt widgets flattened into fields:
    the on/off toggle slider, the status labels and box, the icons, the
    connections of EIPToggledOn / EIPToggledOff, a log of emitted signals
    and the queue of actions deferred to the event loop. Each method names
    in its `modifies` clause exactly the fields it may change. */
module StatusPanel {
  import opened StatusLogic

  class StatusPanelWidget {
    // the toggle slider
    var sliderValue: int
    var sliderPosition: int
    var sliderDown: bool
    var styleTag: string
    var enabled: bool
    /** The slider's value before the last programmatic change. */
    var eipswitchVal: int

    // labels, status box, icons
    var eipLabel: string
    var trayToolTip: string
    var globalLabel: string
    var statusBoxVisible: bool
    /** The pixmap of the panel's EIP status label (the set_icon target). */
    var statusIcon: string
    var trayIcon: string
    var trayActionText: string
    var hasSystray: bool
    var hasEipAction: bool
    const statusIcons: IconSet
    const trayIcons: IconSet

    // signal wiring and observable effects
    /** What EIPToggledOn and EIPToggledOff are connected to, in
        connection order. */
    var onHandlers: seq<Signal>
    var offHandlers: seq<Signal>
    /** Every signal emitted so far, a forwarded one right after the
        signal it is connected to. */
    var emitted: seq<Signal>
    /** Actions posted to the event loop by zero-delay timers. */
    var pending: seq<Deferred>

    ghost predicate Valid()
      reads this
    {
      0 <= sliderValue <= SliderMax &&
      0 <= sliderPosition <= SliderMax &&
      0 <= eipswitchVal <= SliderMax &&
      styleTag in StyleTags
    }

    /** Builds the panel: style "off", EIPToggledOn forwarded to start_eip,
        slider disabled, status box hidden, icon sets for the platform. */
    constructor (isLinux: bool, isWin: bool)
      ensures Valid()
      ensures sliderValue == 0 && sliderPosition == 0 && !sliderDown && eipswitchVal == 0
      ensures styleTag == "off" && !enabled
      ensures onHandlers == [StartEip] && offHandlers == []
      ensures !statusBoxVisible
      ensures (statusIcons, trayIcons) == EipIcons(isLinux, isWin)
      ensures !hasSystray && !hasEipAction
      ensures emitted == [] && pending == []
    {
      sliderValue, sliderPosition, sliderDown := 0, 0, false;
      eipswitchVal := 0;
      styleTag := ToggleStyleTag(false, false);
      onHandlers, offHandlers := [StartEip], [];
      enabled := false;
      eipLabel, trayToolTip, globalLabel := "", "", "";
      statusBoxVisible := false;
      var icons := EipIcons(isLinux, isWin);
      statusIcons, trayIcons := icons.0, icons.1;
      statusIcon, trayIcon, trayActionText := "", "", "";
      hasSystray, hasEipAction := false, false;
      emitted, pending := [], [];
    }

    // -------------------------------------------------------------------
    // Slider
    // -------------------------------------------------------------------

    /** Records the old slider value, moves the slider (Qt clamps to the
        range and moves the handle with it) and emits EIPToggledOn exactly
        when the requested value is the maximum, else EIPToggledOff;
        whatever the emitted signal is connected to fires after it. */
    method SliderEIPToggleChangeValue(value: int)
      requires Valid()
      modifies this`eipswitchVal, this`sliderValue, this`sliderPosition, this`emitted
      ensures Valid()
      ensures eipswitchVal == old(sliderValue)
      ensures sliderValue == sliderPosition == ClampToSlider(value)
      ensures value == SliderMax ==> emitted == old(emitted) + [ToggledOn] + onHandlers
      ensures value != SliderMax ==> emitted == old(emitted) + [ToggledOff] + offHandlers
    {
      eipswitchVal := sliderValue;
      sliderValue := ClampToSlider(value);
      sliderPosition := sliderValue;
      if value == SliderMax {
        emitted := emitted + [ToggledOn] + onHandlers;
      } else {
        emitted := emitted + [ToggledOff] + offHandlers;
      }
    }

    /** Slider on, with the in-progress background. */
    method SliderEIPToggleOn()
      requires Valid()
      modifies this`eipswitchVal, this`sliderValue, this`sliderPosition, this`emitted, this`styleTag
      ensures Valid()
      ensures sliderValue == sliderPosition == SliderMax && styleTag == "inprogress"
      ensures eipswitchVal == old(sliderValue)
      ensures emitted == old(emitted) + [ToggledOn] + onHandlers
    {
      SliderEIPToggleChangeValue(SliderMax);
      SetEIPToggleCustomStyle(true, true);
    }

    /** Slider on, with the on background. */
    method SliderEIPToggleConnected()
      requires Valid()
      modifies this`eipswitchVal, this`sliderValue, this`sliderPosition, this`emitted, this`styleTag
      ensures Valid()
      ensures sliderValue == sliderPosition == SliderMax && styleTag == "on"
      ensures eipswitchVal == old(sliderValue)
      ensures emitted == old(emitted) + [ToggledOn] + onHandlers
    {
      SliderEIPToggleChangeValue(SliderMax);
      SetEIPToggleCustomStyle(true, false);
    }

    /** Slider off, with the off background. */
    method SliderEIPToggleOff()
      requires Valid()
      modifies this`eipswitchVal, this`sliderValue, this`sliderPosition, this`emitted, this`styleTag
      ensures Valid()
      ensures sliderValue == sliderPosition == 0 && styleTag == "off"
      ensures eipswitchVal == old(sliderValue)
      ensures emitted == old(emitted) + [ToggledOff] + offHandlers
    {
      SliderEIPToggleChangeValue(0);
      SetEIPToggleCustomStyle(false, false);
    }

    /** The slider's valueChanged handler, called with the value the slider
        already holds: unless the handle is held, snap to on when the value
        is above the remembered one, else to off, showing "inprogress". */
    method ChangeEIPToggleOnClicked(value: int)
      requires Valid() && sliderValue == value
      modifies this`eipswitchVal, this`sliderValue, this`sliderPosition, this`emitted, this`styleTag
      ensures Valid()
      ensures old(sliderDown) ==>
        eipswitchVal == old(eipswitchVal) && sliderValue == old(sliderValue) &&
        sliderPosition == old(sliderPosition) && emitted == old(emitted) && styleTag == old(styleTag)
      ensures !old(sliderDown) ==>
        styleTag == "inprogress" && eipswitchVal == old(sliderValue) && sliderPosition == sliderValue &&
        (value > old(eipswitchVal) ==> sliderValue == SliderMax && emitted == old(emitted) + [ToggledOn] + onHandlers) &&
        (value <= old(eipswitchVal) ==> sliderValue == 0 && emitted == old(emitted) + [ToggledOff] + offHandlers)
    {
      if !sliderDown {
        var newValue, on;
        if value > eipswitchVal {
          newValue, on := SliderMax, true;
        } else {
          newValue, on := 0, false;
        }
        SetEIPToggleCustomStyle(on, true);
        SliderEIPToggleChangeValue(newValue);
      }
    }

    /** The handle was let go: a position strictly past the midpoint snaps
        to on, anything else (the midpoint included) to off; in the off case
        the slider is zeroed first, so the remembered value ends as 0. */
    method ChangeEIPToggleOnReleased()
      requires Valid()
      modifies this`eipswitchVal, this`sliderValue, this`sliderPosition, this`emitted, this`styleTag
      ensures Valid()
      ensures styleTag == "inprogress" && sliderPosition == sliderValue
      ensures old(sliderPosition) > SliderMax / 2 ==>
        sliderValue == SliderMax && eipswitchVal == old(sliderValue) &&
        emitted == old(emitted) + [ToggledOn] + onHandlers
      ensures old(sliderPosition) <= SliderMax / 2 ==>
        sliderValue == 0 && eipswitchVal == 0 &&
        emitted == old(emitted) + [ToggledOff] + offHandlers
    {
      var value := sliderPosition;
      var newValue, on;
      if value > SliderMax / 2 {
        newValue, on := SliderMax, true;
      } else {
        newValue, on := 0, false;
        sliderValue, sliderPosition := 0, 0;
      }
      SetEIPToggleCustomStyle(on, true);
      SliderEIPToggleChangeValue(newValue);
    }

    /** The user grabs the handle of the enabled slider. */
    method PressHandle()
      requires enabled
      modifies this`sliderDown
      ensures sliderDown
    {
      sliderDown := true;
    }

    /** The user drags the held handle; with Qt's default tracking the value
        follows the handle, and the click handler ignores the change while
        the handle is held. */
    method MoveHandle(position: int)
      requires Valid() && sliderDown
      modifies this`sliderValue, this`sliderPosition
      ensures Valid()
      ensures sliderValue == sliderPosition == ClampToSlider(position)
    {
      sliderPosition := ClampToSlider(position);
      sliderValue := sliderPosition;
    }

    /** The user lets the handle go: the slider's sliderReleased signal
        runs the release handler. */
    method ReleaseHandle()
      requires Valid() && sliderDown
      modifies this`sliderDown, this`eipswitchVal, this`sliderValue, this`sliderPosition, this`emitted, this`styleTag
      ensures Valid() && !sliderDown
      ensures styleTag == "inprogress" && sliderPosition == sliderValue
      ensures old(sliderPosition) > SliderMax / 2 ==>
        sliderValue == SliderMax && eipswitchVal == old(sliderValue) &&
        emitted == old(emitted) + [ToggledOn] + onHandlers
      ensures old(sliderPosition) <= SliderMax / 2 ==>
        sliderValue == 0 && eipswitchVal == 0 &&
        emitted == old(emitted) + [ToggledOff] + offHandlers
    {
      sliderDown := false;
      ChangeEIPToggleOnReleased();
    }

    /** The user clicks the groove of the enabled slider at `value`: the
        slider moves there and, if its value changed, valueChanged runs the
        click handler with the new value, which the remembered value then
        takes before the slider snaps to an end. */
    method ClickGroove(value: int)
      requires Valid() && enabled && !sliderDown
      modifies this`eipswitchVal, this`sliderValue, this`sliderPosition, this`emitted, this`styleTag
      ensures Valid()
      ensures ClampToSlider(value) == old(sliderValue) ==>
        eipswitchVal == old(eipswitchVal) && sliderValue == old(sliderValue) &&
        sliderPosition == old(sliderPosition) && emitted == old(emitted) && styleTag == old(styleTag)
      ensures ClampToSlider(value) != old(sliderValue) ==>
        styleTag == "inprogress" && eipswitchVal == ClampToSlider(value) && sliderPosition == sliderValue &&
        (ClampToSlider(value) > old(eipswitchVal) ==>
          sliderValue == SliderMax && emitted == old(emitted) + [ToggledOn] + onHandlers) &&
        (ClampToSlider(value) <= old(eipswitchVal) ==>
          sliderValue == 0 && emitted == old(emitted) + [ToggledOff] + offHandlers)
    {
      var clicked := ClampToSlider(value);
      if clicked != sliderValue {
        sliderValue, sliderPosition := clicked, clicked;
        ChangeEIPToggleOnClicked(clicked);
      }
    }

    // -------------------------------------------------------------------
    // Style and enabling
    // -------------------------------------------------------------------

    /** Applies the stylesheet for the tag chosen from on and inprogress;
        the template's assertion on the tag always holds here. */
    method SetEIPToggleCustomStyle(on: bool, inprogress: bool)
      modifies this`styleTag
      ensures styleTag == ToggleStyleTag(on, inprogress)
      ensures ToggleStyle(styleTag).Some?
    {
      var status := ToggleStyleTag(on, inprogress);
      var sheet := ToggleStyle(status);
      assert sheet.Some?;
      styleTag := status;
    }

    method SetStartStopEnabled(value: bool)
      modifies this`enabled
      ensures enabled == value
    {
      enabled := value;
    }

    // -------------------------------------------------------------------
    // Status text and box
    // -------------------------------------------------------------------

    method SetSystray()
      modifies this`hasSystray
      ensures hasSystray
    {
      hasSystray := true;
    }

    method SetActionEipStatus()
      modifies this`hasEipAction
      ensures hasEipAction
    {
      hasEipAction := true;
    }

    /** Shows the global status (red bold for an error) and the box. */
    method SetGlobalStatus(status: string, error: bool)
      modifies this`globalLabel, this`statusBoxVisible
      ensures globalLabel == GlobalLabelText(status, error)
      ensures statusBoxVisible
    {
      globalLabel := GlobalLabelText(status, error);
      statusBoxVisible := true;
    }

    method HideStatusBox()
      modifies this`statusBoxVisible
      ensures !statusBoxVisible
    {
      statusBoxVisible := false;
    }

    /** The tray tooltip gets the raw status; the EIP label gets it in red
        for an error. The tray icon must have been set. */
    method SetEipStatus(status: string, error: bool)
      requires hasSystray
      modifies this`trayToolTip, this`eipLabel
      ensures trayToolTip == status
      ensures eipLabel == EipLabelText(status, error)
    {
      trayToolTip := status;
      eipLabel := EipLabelText(status, error);
    }

    // -------------------------------------------------------------------
    // Lifecycle
    // -------------------------------------------------------------------

    /** EIP is being activated: hide the box and disable the slider. */
    method EipPreUp()
      modifies this`statusBoxVisible, this`enabled
      ensures !statusBoxVisible && !enabled
    {
      HideStatusBox();
      SetStartStopEnabled(false);
    }

    /** EIP started: EIPToggledOn loses all its connections (none is
        tolerated), EIPToggledOff gains stop_eip, and the slider turns on,
        so the on-emission it causes requests nothing. */
    method EipStarted()
      requires Valid()
      modifies this`onHandlers, this`offHandlers,
        this`eipswitchVal, this`sliderValue, this`sliderPosition, this`emitted, this`styleTag
      ensures Valid()
      ensures onHandlers == [] && offHandlers == old(offHandlers) + [StopEip]
      ensures sliderValue == sliderPosition == SliderMax && styleTag == "inprogress"
      ensures eipswitchVal == old(sliderValue)
      ensures emitted == old(emitted) + [ToggledOn]
    {
      onHandlers := [];
      offHandlers := offHandlers + [StopEip];
      SliderEIPToggleOn();
    }

    /** EIP stopped: the mirror image of EipStarted. */
    method EipStopped()
      requires Valid()
      modifies this`onHandlers, this`offHandlers,
        this`eipswitchVal, this`sliderValue, this`sliderPosition, this`emitted, this`styleTag
      ensures Valid()
      ensures offHandlers == [] && onHandlers == old(onHandlers) + [StartEip]
      ensures sliderValue == sliderPosition == 0 && styleTag == "off"
      ensures eipswitchVal == old(sliderValue)
      ensures emitted == old(emitted) + [ToggledOff]
    {
      offHandlers := [];
      onHandlers := onHandlers + [StartEip];
      SliderEIPToggleOff();
    }

    // -------------------------------------------------------------------
    // Status mapping
    // -------------------------------------------------------------------

    /** Status label icon, tray icon and tray action text all come from the
        icon class of the status. */
    method SetEipStatusIcon(status: string)
      requires hasSystray && hasEipAction
      modifies this`statusIcon, this`trayIcon, this`trayActionText
      ensures statusIcon == statusIcons.Pick(StatusIconKind(status))
      ensures trayIcon == trayIcons.Pick(StatusIconKind(status))
      ensures trayActionText == TrayMessage(StatusIconKind(status))
    {
      var kind := StatusIconKind(status);
      statusIcon := statusIcons.Pick(kind);
      trayIcon := trayIcons.Pick(kind);
      trayActionText := TrayMessage(kind);
    }

    /** A new status step from the VPN process: icons from the icon
        mapping, label from the label table; CONNECTED alone turns the
        slider on and enables it; ALREADYRUNNING leaves the label and
        queues stop_eip, then the global error message. */
    method UpdateVpnState(status: string)
      requires Valid() && hasSystray && hasEipAction
      modifies this`statusIcon, this`trayIcon, this`trayActionText, this`trayToolTip, this`eipLabel,
        this`eipswitchVal, this`sliderValue, this`sliderPosition, this`emitted, this`styleTag,
        this`enabled, this`pending
      ensures Valid()
      ensures statusIcon == statusIcons.Pick(StatusIconKind(status))
      ensures trayIcon == trayIcons.Pick(StatusIconKind(status))
      ensures trayActionText == TrayMessage(StatusIconKind(status))
      ensures StateLabel(status).Some? ==>
        eipLabel == StateLabel(status).value && trayToolTip == StateLabel(status).value
      ensures StateLabel(status).None? ==> eipLabel == old(eipLabel) && trayToolTip == old(trayToolTip)
      ensures status == "CONNECTED" ==>
        sliderValue == sliderPosition == SliderMax && styleTag == "on" && enabled &&
        eipswitchVal == old(sliderValue) && emitted == old(emitted) + [ToggledOn] + onHandlers
      ensures status != "CONNECTED" ==>
        sliderValue == old(sliderValue) && sliderPosition == old(sliderPosition) &&
        styleTag == old(styleTag) && enabled == old(enabled) &&
        eipswitchVal == old(eipswitchVal) && emitted == old(emitted)
      ensures pending == old(pending) +
        (if status == AlreadyRunningStep then [RequestStopEip, ShowGlobalStatus(AlreadyRunningMessage, false)] else [])
    {
      SetEipStatusIcon(status);
      var shown := StateLabel(status);
      if status == "CONNECTED" {
        SetEipStatus(shown.value, false);
        SliderEIPToggleConnected();
        SetStartStopEnabled(true);
      } else if shown.Some? {
        SetEipStatus(shown.value, false);
      } else {
        pending := pending + [RequestStopEip];
        pending := pending + [ShowGlobalStatus(AlreadyRunningMessage, false)];
      }
    }

    /** The event loop runs the oldest deferred action: either stop_eip is
        emitted, or the global status is shown. */
    method RunNextDeferred()
      requires pending != []
      modifies this`pending, this`emitted, this`globalLabel, this`statusBoxVisible
      ensures pending == old(pending)[1..]
      ensures old(pending)[0] == RequestStopEip ==>
        emitted == old(emitted) + [StopEip] &&
        globalLabel == old(globalLabel) && statusBoxVisible == old(statusBoxVisible)
      ensures old(pending)[0].ShowGlobalStatus? ==>
        emitted == old(emitted) &&
        globalLabel == GlobalLabelText(old(pending)[0].message, old(pending)[0].error) && statusBoxVisible
    {
      var action := pending[0];
      pending := pending[1..];
      match action
      case RequestStopEip =>
        emitted := emitted + [StopEip];
      case ShowGlobalStatus(message, error) =>
        SetGlobalStatus(message, error);
    }
  }

  /** A session as the application drives it: once the slider is enabled,
      a groove click requests start_eip; once EIP has started, its CONNECTED
      step requests nothing more and re-enables the slider, and a click back
      to off requests stop_eip. */
  method ConnectAndDisconnect()
  {
    var panel := new StatusPanelWidget(true, false);
    panel.SetSystray();
    panel.SetActionEipStatus();
    panel.SetStartStopEnabled(true);
    panel.ClickGroove(100);
    assert panel.emitted == [ToggledOn, StartEip];
    assert panel.eipswitchVal == 100;
    panel.EipPreUp();
    panel.EipStarted();
    assert panel.emitted == [ToggledOn, StartEip, ToggledOn];
    assert StateLabel("CONNECTED") == Some("ON");
    assert StatusIconKind("CONNECTED") == Connected by {
      IconKindExamples();
    }
    panel.UpdateVpnState("CONNECTED");
    assert panel.emitted == [ToggledOn, StartEip, ToggledOn, ToggledOn];
    assert panel.enabled && panel.styleTag == "on";
    assert panel.eipLabel == "ON";
    assert panel.trayActionText == "Encryption is ON";
    panel.ClickGroove(0);
    assert panel.emitted == [ToggledOn, StartEip, ToggledOn, ToggledOn, ToggledOff, StopEip];
    assert panel.sliderValue == 0;
  }

  /** ALREADYRUNNING: the label stays, and the event loop later emits
      stop_eip and then shows the error in the global status box. */
  method AlreadyRunningIsDeferred()
  {
    var panel := new StatusPanelWidget(false, true);
    panel.SetSystray();
    panel.SetActionEipStatus();
    panel.SetEipStatus("Waiting to start...", false);
    assert StateLabel(AlreadyRunningStep) == None;
    assert StatusIconKind(AlreadyRunningStep) == Error by {
      IconKindExamples();
    }
    panel.UpdateVpnState(AlreadyRunningStep);
    assert panel.eipLabel == "Waiting to start...";
    assert panel.trayActionText == "Encryption is OFF";
    assert panel.pending == [RequestStopEip, ShowGlobalStatus(AlreadyRunningMessage, false)];
    panel.RunNextDeferred();
    assert panel.emitted == [StopEip];
    panel.RunNextDeferred();
    assert panel.pending == [] && panel.statusBoxVisible;
    assert panel.globalLabel == AlreadyRunningMessage;
  }

  /** A drag released exactly at the midpoint snaps off; one step further
      snaps on. */
  method ReleaseAtMidpoint()
  {
    var panel := new StatusPanelWidget(false, false);
    panel.SetStartStopEnabled(true);
    panel.PressHandle();
    panel.MoveHandle(50);
    panel.ReleaseHandle();
    assert panel.sliderValue == 0;
    panel.PressHandle();
    panel.MoveHandle(51);
    panel.ReleaseHandle();
    assert panel.sliderValue == 100;
  }
}
