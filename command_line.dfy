/**
 * `getConnectionParameters` and `getInputParameters`: scan the arguments in
 * flag/value pairs (every even index is a flag), matching flags ignoring
 * case, and fill in the sample's static settings.
 */
module CommandLine {
  import opened Wrappers
  import opened JavaStrings
  import opened Vim

  const Help := "--help"
  const Url := "--url"
  const UserName := "--username"
  const Password := "--password"
  const PodName := "--podname"

  const ConnectionMessage := "Expected --url, --username and --password arguments."
  const PodNameMessage := "Expected --podname argument."

  /** A value is taken only when it is non-empty and does not start with `--`. */
  predicate Accepts(val: string)
  {
    !StartsWith(val, "--") && val != ""
  }

  /** `val` in the iteration at `ai`: the trimmed next argument, or `""` after the last one. */
  function ValueAt(args: seq<string>, ai: nat): string
  {
    if ai + 1 < |args| then Trim(args[ai + 1]) else ""
  }

  /** The scan visits index `i` and finds `flag` there. */
  predicate FlagAt(args: seq<string>, i: int, flag: string)
  {
    0 <= i < |args| && i % 2 == 0 && EqualsIgnoreCase(Trim(args[i]), flag)
  }

  /** The scan visits index `i`, finds `flag` there and accepts the value after it. */
  predicate Pair(args: seq<string>, i: int, flag: string)
  {
    FlagAt(args, i, flag) && Accepts(ValueAt(args, i))
  }

  /** The settings `getConnectionParameters` assigns. */
  datatype Connection = Connection(url: Option<string>, userName: Option<string>, password: Option<string>, help: bool)

  /** The setting a connection flag assigns. */
  function Field(c: Connection, flag: string): Option<string>
  {
    if flag == Url then c.url else if flag == UserName then c.userName else c.password
  }

  /** One iteration of lines 122-131, at an index that does not hold `--help`. */
  function ConnectionStep(c: Connection, args: seq<string>, ai: nat): Connection
  {
    if Pair(args, ai, Url) then c.(url := Some(ValueAt(args, ai)))
    else if Pair(args, ai, UserName) then c.(userName := Some(ValueAt(args, ai)))
    else if Pair(args, ai, Password) then c.(password := Some(ValueAt(args, ai)))
    else c
  }

  /** The loop of lines 114-134 from index `ai` on. */
  function ScanConnection(args: seq<string>, ai: nat, c: Connection): Connection
    decreases |args| - ai
  {
    if ai >= |args| then c
    else if FlagAt(args, ai, Help) then c.(help := true)
    else ScanConnection(args, ai + 2, ConnectionStep(c, args, ai))
  }

  /** Lines 135-138: the exception thrown when a connection setting is still null. */
  function ConnectionCheck(c: Connection): Option<Exception>
  {
    if c.url.None? || c.userName.None? || c.password.None? then Some(IllegalArgument(ConnectionMessage)) else None
  }

  /** The loop of lines 146-157 from index `ai` on. */
  function ScanInput(args: seq<string>, ai: nat, podName: Option<string>): Option<string>
    decreases |args| - ai
  {
    if ai >= |args| then podName
    else ScanInput(args, ai + 2, if Pair(args, ai, PodName) then Some(ValueAt(args, ai)) else podName)
  }

  /** Lines 158-160. */
  function InputCheck(podName: Option<string>): Option<Exception>
  {
    if podName.None? then Some(IllegalArgument(PodNameMessage)) else None
  }

  /** Where the connection scan stops from `from` on: the first visited `--help`, or the end. */
  function StopFrom(args: seq<string>, from: nat): (r: nat)
    requires from % 2 == 0
    ensures r <= |args| && (from <= |args| ==> from <= r)
    ensures r < |args| ==> FlagAt(args, r, Help)
    ensures forall j :: from <= j < r ==> !FlagAt(args, j, Help)
    decreases |args| - from
  {
    if from >= |args| then |args|
    else if FlagAt(args, from, Help) then from
    else StopFrom(args, from + 2)
  }

  function Stop(args: seq<string>): nat
  {
    StopFrom(args, 0)
  }

  /** A parameter that matches one flag matches no other (their lengths or their third letters differ). */
  lemma FlagsExclusive(param: string)
    ensures !(EqualsIgnoreCase(param, Help) && EqualsIgnoreCase(param, Url))
    ensures !(EqualsIgnoreCase(param, Help) && EqualsIgnoreCase(param, UserName))
    ensures !(EqualsIgnoreCase(param, Help) && EqualsIgnoreCase(param, Password))
    ensures !(EqualsIgnoreCase(param, Url) && EqualsIgnoreCase(param, UserName))
    ensures !(EqualsIgnoreCase(param, Url) && EqualsIgnoreCase(param, Password))
    ensures !(EqualsIgnoreCase(param, UserName) && EqualsIgnoreCase(param, Password))
  {
    EqualsIgnoreCaseAt(param, UserName);
    EqualsIgnoreCaseAt(param, Password);
    if |param| == |UserName| {
      assert UserName[2] == 'u' && Password[2] == 'p';
    }
  }

  /** From an even index `ai` on, the connection scan sets `help` exactly when it stops at a visited `--help`. */
  lemma {:induction false} ConnectionHelpFrom(args: seq<string>, ai: nat, c: Connection)
    requires ai % 2 == 0
    ensures ScanConnection(args, ai, c).help <==> c.help || StopFrom(args, ai) < |args|
    decreases |args| - ai
  {
    if ai < |args| && !FlagAt(args, ai, Help) {
      ConnectionHelpFrom(args, ai + 2, ConnectionStep(c, args, ai));
    }
  }

  /** A connection setting with no accepted pair before the stop keeps its earlier value. */
  lemma {:induction false} ConnectionUnset(args: seq<string>, ai: nat, c: Connection, flag: string)
    requires ai % 2 == 0
    requires flag == Url || flag == UserName || flag == Password
    requires forall j :: ai <= j < StopFrom(args, ai) ==> !Pair(args, j, flag)
    ensures Field(ScanConnection(args, ai, c), flag) == Field(c, flag)
    decreases |args| - ai
  {
    if ai < |args| && !FlagAt(args, ai, Help) {
      assert !Pair(args, ai, flag);
      ConnectionUnset(args, ai + 2, ConnectionStep(c, args, ai), flag);
    }
  }

  /** A connection setting holds the value of the last accepted pair for its flag before the stop. */
  lemma {:induction false} ConnectionLast(args: seq<string>, ai: nat, c: Connection, flag: string, i: nat)
    requires ai % 2 == 0
    requires flag == Url || flag == UserName || flag == Password
    requires ai <= i < StopFrom(args, ai) && Pair(args, i, flag)
    requires forall j :: i < j < StopFrom(args, ai) ==> !Pair(args, j, flag)
    ensures Field(ScanConnection(args, ai, c), flag) == Some(ValueAt(args, i))
    decreases |args| - ai
  {
    var c' := ConnectionStep(c, args, ai);
    if ai == i {
      FlagsExclusive(Trim(args[ai]));
      assert Field(c', flag) == Some(ValueAt(args, ai));
      ConnectionUnset(args, ai + 2, c', flag);
    } else {
      ConnectionLast(args, ai + 2, c', flag, i);
    }
  }

  /** The `--podname` setting keeps its earlier value when no `--podname` pair is accepted. */
  lemma {:induction false} InputUnset(args: seq<string>, ai: nat, podName: Option<string>)
    requires ai % 2 == 0
    requires forall j :: ai <= j ==> !Pair(args, j, PodName)
    ensures ScanInput(args, ai, podName) == podName
    decreases |args| - ai
  {
    if ai < |args| {
      assert !Pair(args, ai, PodName);
      InputUnset(args, ai + 2, podName);
    }
  }

  /** The `--podname` setting holds the value of the last accepted `--podname` pair anywhere. */
  lemma {:induction false} InputLast(args: seq<string>, ai: nat, podName: Option<string>, i: nat)
    requires ai % 2 == 0 && ai <= i && Pair(args, i, PodName)
    requires forall j :: i < j ==> !Pair(args, j, PodName)
    ensures ScanInput(args, ai, podName) == Some(ValueAt(args, i))
    decreases |args| - ai
  {
    var next := if Pair(args, ai, PodName) then Some(ValueAt(args, ai)) else podName;
    if ai == i {
      InputUnset(args, ai + 2, next);
    } else {
      InputLast(args, ai + 2, next, i);
    }
  }

  /** A setting holds no value or an accepted one. */
  predicate AcceptedOrNull(setting: Option<string>)
  {
    setting.Some? ==> Accepts(setting.value)
  }

  /** The connection scan only ever stores accepted values. */
  lemma {:induction false} ConnectionAccepted(args: seq<string>, ai: nat, c: Connection)
    requires AcceptedOrNull(c.url) && AcceptedOrNull(c.userName) && AcceptedOrNull(c.password)
    ensures var r := ScanConnection(args, ai, c);
      AcceptedOrNull(r.url) && AcceptedOrNull(r.userName) && AcceptedOrNull(r.password)
    decreases |args| - ai
  {
    if ai < |args| && !FlagAt(args, ai, Help) {
      ConnectionAccepted(args, ai + 2, ConnectionStep(c, args, ai));
    }
  }

  /** The input scan only ever stores an accepted value. */
  lemma {:induction false} InputAccepted(args: seq<string>, ai: nat, podName: Option<string>)
    requires AcceptedOrNull(podName)
    ensures AcceptedOrNull(ScanInput(args, ai, podName))
    decreases |args| - ai
  {
    if ai < |args| {
      InputAccepted(args, ai + 2, if Pair(args, ai, PodName) then Some(ValueAt(args, ai)) else podName);
    }
  }

  /** What `main` does after reading the arguments (lines 522-528). */
  datatype Launch = Usage(message: string) | ShowHelp | Run(url: string, userName: string, password: string, podName: string)

  /** The arguments read into the initial (null) settings, then checked as `main` checks them. */
  function Startup(args: seq<string>): (r: Launch)
    ensures r.Usage? ==> r.message == ConnectionMessage || r.message == PodNameMessage
    ensures r.Run? ==> Accepts(r.url) && Accepts(r.userName) && Accepts(r.password) && Accepts(r.podName)
  {
    var c := ScanConnection(args, 0, Connection(None, None, None, false));
    ConnectionAccepted(args, 0, Connection(None, None, None, false));
    if ConnectionCheck(c).Some? then Usage(ConnectionMessage)
    else
      var pod := ScanInput(args, 0, None);
      InputAccepted(args, 0, None);
      if InputCheck(pod).Some? then Usage(PodNameMessage)
      else if c.help then ShowHelp
      else Run(c.url.value, c.userName.value, c.password.value, pod.value)
  }

  /** A connection flag with no accepted pair before the stop leaves its setting null, so `main` prints the usage. */
  lemma MissingConnectionArgument(args: seq<string>, flag: string)
    requires flag == Url || flag == UserName || flag == Password
    requires forall j :: 0 <= j < Stop(args) ==> !Pair(args, j, flag)
    ensures Startup(args) == Usage(ConnectionMessage)
  {
    ConnectionUnset(args, 0, Connection(None, None, None, false), flag);
  }

  /**
   * No accepted `--podname` pair anywhere leaves the pod name null, so `main`
   * prints the usage, even when `--help` was given: the pod-name check comes
   * before the `help` test.
   */
  lemma MissingPodName(args: seq<string>)
    requires forall j :: 0 <= j ==> !Pair(args, j, PodName)
    ensures Startup(args) == Usage(ConnectionMessage) || Startup(args) == Usage(PodNameMessage)
  {
    InputUnset(args, 0, None);
  }

  /**
   * `--help` takes effect only at a visited index, and there it wins over
   * running the sample once the required arguments are present; without one,
   * complete arguments run the sample.
   */
  lemma HelpOnlyAtStop(args: seq<string>)
    ensures Startup(args) == ShowHelp ==> Stop(args) < |args|
    ensures Stop(args) < |args| ==> Startup(args).Usage? || Startup(args) == ShowHelp
    ensures Startup(args).Run? ==> Stop(args) == |args|
  {
    ConnectionHelpFrom(args, 0, Connection(None, None, None, false));
  }

  /** The sample's static settings, which the two scans overwrite in place. */
  class Settings {
    var url: Option<string>
    var userName: Option<string>
    var password: Option<string>
    var podName: Option<string>
    var help: bool

    /** The settings as the class initialises them: all null, help off. */
    constructor ()
      ensures url.None? && userName.None? && password.None? && podName.None? && !help
    {
      url, userName, password, podName, help := None, None, None, None, false;
    }

    function ConnectionFields(): Connection
      reads this
    {
      Connection(url, userName, password, help)
    }

    method GetConnectionParameters(args: seq<string>) returns (thrown: Option<Exception>)
      modifies this
      ensures ConnectionFields() == ScanConnection(args, 0, old(ConnectionFields()))
      ensures podName == old(podName)
      ensures thrown == ConnectionCheck(ConnectionFields())
    {
      var ai := 0;
      var param, val := "", "";
      while ai < |args|
        invariant ai % 2 == 0 && val == ""
        invariant ScanConnection(args, ai, ConnectionFields()) == ScanConnection(args, 0, old(ConnectionFields()))
        invariant podName == old(podName)
        decreases |args| - ai
      {
        param := Trim(args[ai]);
        if ai + 1 < |args| {
          val := Trim(args[ai + 1]);
        }
        if EqualsIgnoreCase(param, Help) {
          help := true;
          break;
        } else if EqualsIgnoreCase(param, Url) && !StartsWith(val, "--") && val != "" {
          url := Some(val);
        } else if EqualsIgnoreCase(param, UserName) && !StartsWith(val, "--") && val != "" {
          userName := Some(val);
        } else if EqualsIgnoreCase(param, Password) && !StartsWith(val, "--") && val != "" {
          password := Some(val);
        }
        val := "";
        ai := ai + 2;
      }
      thrown := None;
      if url.None? || userName.None? || password.None? {
        thrown := Some(IllegalArgument(ConnectionMessage));
      }
    }

    method GetInputParameters(args: seq<string>) returns (thrown: Option<Exception>)
      modifies this
      ensures podName == ScanInput(args, 0, old(podName))
      ensures ConnectionFields() == old(ConnectionFields())
      ensures thrown == InputCheck(podName)
    {
      var ai := 0;
      var param, val := "", "";
      while ai < |args|
        invariant ai % 2 == 0 && val == ""
        invariant ScanInput(args, ai, podName) == ScanInput(args, 0, old(podName))
        invariant ConnectionFields() == old(ConnectionFields())
        decreases |args| - ai
      {
        param := Trim(args[ai]);
        if ai + 1 < |args| {
          val := Trim(args[ai + 1]);
        }
        if EqualsIgnoreCase(param, PodName) && !StartsWith(val, "--") && val != "" {
          podName := Some(val);
        }
        val := "";
        ai := ai + 2;
      }
      thrown := None;
      if podName.None? {
        thrown := Some(IllegalArgument(PodNameMessage));
      }
    }
  }
}
