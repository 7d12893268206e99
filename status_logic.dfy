/** Pure decisions taken by the EIP status panel: the toggle's style tag,
    the icon and tray message chosen for a VPN status step, the label shown
    for that step, the platform icon table and the red markup of error text.
    The widget class in module StatusPanel applies them to its fields. */
module StatusLogic {

  datatype Option<T> = None | Some(value: T)

  /** The toggle slider runs from 0 (off) to SliderMax (on). */
  const SliderMax: int := 100

  /** Qt keeps a slider's value inside its range: setValue clamps. */
  function ClampToSlider(v: int): (r: int)
    ensures 0 <= r <= SliderMax
    ensures 0 <= v <= SliderMax ==> r == v
    ensures v < 0 ==> r == 0
    ensures v > SliderMax ==> r == SliderMax
  {
    if v < 0 then 0 else if v > SliderMax then SliderMax else v
  }

  // ---------------------------------------------------------------------
  // Toggle style
  // ---------------------------------------------------------------------

  /** The only tags the toggle's stylesheet template accepts. */
  const StyleTags: set<string> := {"on", "off", "inprogress"}

  /** The tag chosen by the custom-style setter: "inprogress" overrides
      the on/off state. */
  function ToggleStyleTag(on: bool, inprogress: bool): (tag: string)
    ensures tag in StyleTags
    ensures tag == "inprogress" <==> inprogress
    ensures tag == "on" <==> on && !inprogress
    ensures tag == "off" <==> !on && !inprogress
  {
    if inprogress then "inprogress" else if on then "on" else "off"
  }

  /** The groove background image that the stylesheet template embeds
      for a tag; the rest of the template is fixed text. */
  function GrooveImage(tag: string): (r: string)
    ensures |r| == |tag| + 24
    ensures r[..20] == ":/images/eip-slider-" && r[20..20 + |tag|] == tag && r[20 + |tag|..] == ".png"
  {
    ":/images/eip-slider-" + tag + ".png"
  }

  /** The stylesheet for a tag, or None where the source's assertion on
      the tag fails. */
  function ToggleStyle(status: string): (r: Option<string>)
    ensures r.Some? <==> status in StyleTags
    ensures r.Some? ==> r.value == GrooveImage(status)
  {
    if status in StyleTags then Some(GrooveImage(status)) else None
  }

  /** Distinct tags give distinct stylesheets: the groove image
      determines the tag it was made from. */
  lemma GrooveImageInjective(a: string, b: string)
    requires GrooveImage(a) == GrooveImage(b)
    ensures a == b
  {
  }

  /** Every tag the setter can choose passes the template's assertion. */
  lemma StyleTagAlwaysAccepted(on: bool, inprogress: bool)
    ensures ToggleStyle(ToggleStyleTag(on, inprogress)) == Some(GrooveImage(ToggleStyleTag(on, inprogress)))
  {
  }

  // ---------------------------------------------------------------------
  // Status step -> icon and tray message
  // ---------------------------------------------------------------------

  datatype IconKind = Connecting | Connected | Error

  /** The status steps that the icon mapping tests by tuple membership. */
  const ConnectingSteps: seq<string> := ["WAIT", "AUTH", "GET_CONFIG", "RECONNECTING", "ASSIGN_IP"]

  const ConnectedStep: string := "CONNECTED"

  predicate IsPrefix(p: string, s: string)
  {
    |p| <= |s| && s[..|p|] == p
  }

  /** Python's `s in t` on two strings: s occurs somewhere in t. */
  function InString(s: string, t: string): (b: bool)
    ensures b ==> |s| <= |t|
    ensures IsPrefix(s, t) ==> b
    ensures s == [] ==> b
    decreases |t|
  {
    IsPrefix(s, t) || (|t| > 0 && InString(s, t[1..]))
  }

  /** s occurs in t starting at index i. */
  predicate OccursAt(s: string, t: string, i: int)
  {
    0 <= i <= |t| - |s| && t[i..i + |s|] == s
  }

  /** The substring test agrees with an explicit occurrence index. */
  lemma {:induction false} InStringIff(s: string, t: string)
    ensures InString(s, t) <==> exists i :: OccursAt(s, t, i)
    decreases |t|
  {
    if IsPrefix(s, t) {
      assert OccursAt(s, t, 0);
    } else if |t| > 0 {
      InStringIff(s, t[1..]);
      if InString(s, t[1..]) {
        var j :| OccursAt(s, t[1..], j);
        assert t[j + 1..j + 1 + |s|] == t[1..][j..j + |s|];
        assert OccursAt(s, t, j + 1);
      }
      if i :| OccursAt(s, t, i) {
        assert i != 0;
        assert t[1..][i - 1..i - 1 + |s|] == t[i..i + |s|];
        assert OccursAt(s, t[1..], i - 1);
      }
    } else {
      assert |s| > 0;
    }
  }

  /** The icon class for a status step. The second test is `status in
      ("CONNECTED")`: the parentheses make no tuple, so it is a substring
      test on the string "CONNECTED". */
  function StatusIconKind(status: string): (k: IconKind)
    ensures k == Connecting <==> status in ConnectingSteps
    ensures k == Connected ==> |status| <= |ConnectedStep|
    ensures status == "" ==> k == Connected
  {
    if status in ConnectingSteps then Connecting
    else if InString(status, ConnectedStep) then Connected
    else Error
  }

  /** The tray action's text for each icon class. */
  function TrayMessage(k: IconKind): (msg: string)
    ensures msg == "Turning ON" <==> k == Connecting
    ensures msg == "Encryption is ON" <==> k == Connected
    ensures msg == "Encryption is OFF" <==> k == Error
  {
    match k
    case Connecting => "Turning ON"
    case Connected => "Encryption is ON"
    case Error => "Encryption is OFF"
  }

  /** Distinct icon classes announce distinct tray messages. */
  lemma TrayMessageInjective(a: IconKind, b: IconKind)
    requires TrayMessage(a) == TrayMessage(b)
    ensures a == b
  {
  }

  /** None of the connecting steps occurs inside "CONNECTED". */
  lemma ConnectingStepsNotInConnected(s: string)
    requires s in ConnectingSteps
    ensures !InString(s, ConnectedStep)
  {
    var c := ConnectedStep;
    assert s[0] in {'W', 'A', 'G', 'R'};
    assert forall j :: 0 <= j < |c| ==> c[j] in {'C', 'O', 'N', 'E', 'T', 'D'};
    forall i | 0 <= i <= |c| - |s|
      ensures !OccursAt(s, c, i)
    {
      assert c[i..i + |s|][0] == c[i];
    }
    InStringIff(s, c);
  }

  /** Any substring of "CONNECTED", the empty string included, gives the
      connected icon; nothing else does. */
  lemma ConnectedIconIff(status: string)
    ensures StatusIconKind(status) == Connected <==> exists i :: OccursAt(status, ConnectedStep, i)
  {
    InStringIff(status, ConnectedStep);
    if status in ConnectingSteps {
      ConnectingStepsNotInConnected(status);
    }
  }

  /** The error icon is the fallback: neither a connecting step nor a
      substring of "CONNECTED". */
  lemma ErrorIconIff(status: string)
    ensures StatusIconKind(status) == Error <==>
      status !in ConnectingSteps &&
      !exists i :: OccursAt(status, ConnectedStep, i)
  {
    InStringIff(status, ConnectedStep);
  }

  /** The tray message shown for every status: "Turning ON" for the five
      connecting steps, "Encryption is ON" for any substring of
      "CONNECTED", "Encryption is OFF" for everything else. */
  lemma TrayMessageTable(status: string)
    ensures TrayMessage(StatusIconKind(status)) == "Turning ON" <==> status in ConnectingSteps
    ensures TrayMessage(StatusIconKind(status)) == "Encryption is ON" <==>
      exists i :: OccursAt(status, ConnectedStep, i)
    ensures TrayMessage(StatusIconKind(status)) == "Encryption is OFF" <==>
      status !in ConnectingSteps && !exists i :: OccursAt(status, ConnectedStep, i)
  {
    ConnectedIconIff(status);
    ErrorIconIff(status);
  }

  /** Concrete consequences of the substring test. */
  lemma IconKindExamples()
    ensures StatusIconKind("CONNECTED") == Connected
    ensures StatusIconKind("") == Connected
    ensures StatusIconKind("CONNECT") == Connected
    ensures StatusIconKind("NECTED") == Connected
    ensures StatusIconKind("ALREADYRUNNING") == Error
    ensures StatusIconKind("CONNECTING") == Error
    ensures StatusIconKind("RECONNECTING") == Connecting
  {
  }

  // ---------------------------------------------------------------------
  // Platform icon table
  // ---------------------------------------------------------------------

  /** The three icons of one set, indexed by icon class. */
  datatype IconSet = IconSet(connecting: string, connected: string, error: string)
  {
    function Pick(k: IconKind): string
    {
      match k
      case Connecting => connecting
      case Connected => connected
      case Error => error
    }
  }

  /** The two icon sets, named by their file names: the files with the
      `-light` suffix and the plain ones. The source's docstring calls the
      panel icons on Linux and all icons on Mac "dark", though both use the
      `-light` files; the names here follow the files. */
  const LightFileIcons: IconSet := IconSet(
    ":/images/conn_connecting-light.png",
    ":/images/conn_connected-light.png",
    ":/images/conn_error-light.png")

  const PlainFileIcons: IconSet := IconSet(
    ":/images/conn_connecting.png",
    ":/images/conn_connected.png",
    ":/images/conn_error.png")

  /** The status-label and tray icon sets for the host platform: the `-light`
      files by default, the plain files in the Linux tray, the plain files
      everywhere on Windows. The Linux test comes first, so it wins if both
      flags are set. */
  function EipIcons(isLinux: bool, isWin: bool): (sets: (IconSet, IconSet))
    ensures sets.1 == (if isLinux || isWin then PlainFileIcons else LightFileIcons)
    ensures sets.0 == (if isWin && !isLinux then PlainFileIcons else LightFileIcons)
  {
    if isLinux then (LightFileIcons, PlainFileIcons)
    else if isWin then (PlainFileIcons, PlainFileIcons)
    else (LightFileIcons, LightFileIcons)
  }

  /** Within each set the three icon classes have distinct images, and the
      status label shows the plain files only when the tray does too. */
  lemma EipIconsDistinguishKinds(isLinux: bool, isWin: bool, a: IconKind, b: IconKind)
    requires a != b
    ensures EipIcons(isLinux, isWin).0.Pick(a) != EipIcons(isLinux, isWin).0.Pick(b)
    ensures EipIcons(isLinux, isWin).1.Pick(a) != EipIcons(isLinux, isWin).1.Pick(b)
    ensures EipIcons(isLinux, isWin).0 == PlainFileIcons ==> EipIcons(isLinux, isWin).1 == PlainFileIcons
  {
  }

  // ---------------------------------------------------------------------
  // Status step -> label
  // ---------------------------------------------------------------------

  /** The steps with a fixed label, and the one that leaves it alone. */
  const LabelledSteps: set<string> := {"CONNECTED", "AUTH", "GET_CONFIG", "WAIT", "ASSIGN_IP"}
  const AlreadyRunningStep: string := "ALREADYRUNNING"

  /** The message queued for the global status box on ALREADYRUNNING. */
  const AlreadyRunningMessage: string := "Unable to start VPN, it's already running."

  /** The EIP status label shown for a status step; None when the label
      is left as it was (ALREADYRUNNING). */
  function StateLabel(status: string): (r: Option<string>)
    ensures r.None? <==> status == AlreadyRunningStep
    ensures status == "CONNECTED" ==> r == Some("ON")
    ensures status == "AUTH" ==> r == Some("Authenticating...")
    ensures status == "GET_CONFIG" ==> r == Some("Retrieving configuration...")
    ensures status == "WAIT" ==> r == Some("Waiting to start...")
    ensures status == "ASSIGN_IP" ==> r == Some("Assigning IP")
    ensures status !in LabelledSteps && status != AlreadyRunningStep ==> r == Some(status)
  {
    if status == "CONNECTED" then Some("ON")
    else if status == "AUTH" then Some("Authenticating...")
    else if status == "GET_CONFIG" then Some("Retrieving configuration...")
    else if status == "WAIT" then Some("Waiting to start...")
    else if status == "ASSIGN_IP" then Some("Assigning IP")
    else if status == AlreadyRunningStep then None
    else Some(status)
  }

  /** A status with no fixed label is shown verbatim; RECONNECTING is one
      of them, unlike in the icon mapping. */
  lemma ReconnectingShownVerbatim()
    ensures StateLabel("RECONNECTING") == Some("RECONNECTING")
    ensures StatusIconKind("RECONNECTING") == Connecting
  {
  }

  // ---------------------------------------------------------------------
  // Error markup
  // ---------------------------------------------------------------------

  const RedOpen: string := "<font color='red'>"
  const RedBoldOpen: string := "<font color='red'><b>"
  const FontClose: string := "</font>"
  const BoldFontClose: string := "</b></font>"

  /** Wraps s between open and close; s is recoverable from the result. */
  function Wrap(open: string, s: string, close: string): (r: string)
    ensures |r| == |open| + |s| + |close|
    ensures r[..|open|] == open
    ensures r[|open|..|open| + |s|] == s
    ensures r[|open| + |s|..] == close
  {
    open + s + close
  }

  /** The EIP label text: red markup only for an error. */
  function EipLabelText(status: string, error: bool): (r: string)
    ensures !error ==> r == status
    ensures error ==> |r| == |status| + 25 && r[..18] == RedOpen && r[18..18 + |status|] == status
                      && r[18 + |status|..] == FontClose
  {
    if error then Wrap(RedOpen, status, FontClose) else status
  }

  /** The global status text: red bold markup only for an error. */
  function GlobalLabelText(status: string, error: bool): (r: string)
    ensures !error ==> r == status
    ensures error ==> |r| == |status| + 32 && r[..21] == RedBoldOpen && r[21..21 + |status|] == status
                      && r[21 + |status|..] == BoldFontClose
  {
    if error then Wrap(RedBoldOpen, status, BoldFontClose) else status
  }

  /** The error markup is never mistaken for plain text of the same
      status. */
  lemma ErrorMarkupVisible(status: string)
    ensures EipLabelText(status, true) != EipLabelText(status, false)
  {
  }

  /** With the same error flag, two labels agree only for the same
      status. */
  lemma EipLabelTextInjective(a: string, ea: bool, b: string, eb: bool)
    requires ea == eb
    requires EipLabelText(a, ea) == EipLabelText(b, eb)
    ensures a == b
  {
  }

  // ---------------------------------------------------------------------
  // Signals and deferred actions
  // ---------------------------------------------------------------------

  /** The widget's four signals. start_eip and stop_eip are also what
      EIPToggledOn and EIPToggledOff are connected to. */
  datatype Signal = ToggledOn | ToggledOff | StartEip | StopEip

  /** An action put on the event loop by a zero-delay timer. */
  datatype Deferred = RequestStopEip | ShowGlobalStatus(message: string, error: bool)
}
