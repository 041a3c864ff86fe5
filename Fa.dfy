/**
 * The command line that starts the game (LaunchCommandBuilder): a fluent
 * builder whose nullable fields are set one by one, and build(), which turns
 * them into the executable, a fixed prefix, one flag/value pair per set
 * option in a fixed order, and the extra arguments.
 *
 * The builder is a class whose fields the setters assign; a Java null is
 * None. build() grows its list step by step and is proved equal to the
 * function Command, about which the lemmas below speak. Path.toAbsolutePath,
 * URL.toExternalForm and String.valueOf(Float) are functions supplied by the
 * caller (Renderers).
 */
module Fa {
  import opened Wrappers
  import opened JavaText

  /** A java.nio.file.Path, by the text it was made from. */
  datatype Path = Path(text: string)

  /** A java.net.URL, by the text it was made from. */
  datatype Url = Url(text: string)

  /** A java.lang.Float, by its IEEE 754 bits. */
  datatype Float = Float(bits: bv32)

  /** The library conversions build() relies on and this model does not reproduce. */
  datatype Renderers = Renderers(
    absolutePath: Path -> string,  // path.toAbsolutePath().toString()
    externalForm: Url -> string,   // url.toExternalForm()
    floatText: Float -> string)    // String.valueOf(Float)

  /** The builder's fields, as a value. */
  datatype Settings = Settings(
    mean: Option<Float>,
    deviation: Option<Float>,
    country: Option<string>,
    clan: Option<string>,
    username: Option<string>,
    uid: Option<Int32>,
    executable: Option<Path>,
    additionalArgs: Option<seq<string>>,
    localGpgPort: Option<Int32>,
    logFile: Option<Path>,
    replayFile: Option<Path>,
    replayId: Option<Int32>,
    replayUrl: Option<Url>)

  /** What a new builder holds: every field null. */
  const Unset := Settings(None, None, None, None, None, None, None, None, None, None, None, None, None)

  // ===========================================================================
  // The command, as a function of the settings

  /** One optional flag of the command line, with its value when it is to be passed. */
  datatype Entry = Entry(flag: string, value: Option<string>)

  /** A flag and its value, as they appear on the command line. */
  datatype Arg = Arg(flag: string, value: string)

  /** The value of /gpgnet: the local game proxy's address. */
  function GpgNetAddress(port: Int32): (a: string)
    ensures |a| > 10 && a[..10] == "127.0.0.1:"
    ensures ParseDecimal(a[10..]) == Some(port as int)
  {
    var a := "127.0.0.1:" + IntToDecimal(port);
    assert a[10..] == IntToDecimal(port);
    IntToDecimalRoundTrip(port);
    a
  }

  /** The value of /savereplay: where the game proxy stores the replay. */
  function SaveReplayUrl(uid: Int32, username: string): string {
    "gpgnet://localhost/" + IntToDecimal(uid) + "/" + username + ".SCFAreplay"
  }

  /**
   * The optional flags in the order build() tests them, each with the value it
   * would pass (None when its field, or one of its fields, is null; /clan also
   * when the clan is empty).
   */
  function OptionTable(s: Settings, r: Renderers): (t: seq<Entry>)
    ensures |t| == 9
  {
    [GpgNetEntry(s), MeanEntry(s, r), DeviationEntry(s, r), ReplayFileEntry(s, r), ReplayUrlEntry(s, r),
     SaveReplayEntry(s), CountryEntry(s), ClanEntry(s), ReplayIdEntry(s)]
  }

  function GpgNetEntry(s: Settings): Entry {
    Entry("/gpgnet", if s.localGpgPort.Some? then Some(GpgNetAddress(s.localGpgPort.value)) else None)
  }

  function MeanEntry(s: Settings, r: Renderers): Entry {
    Entry("/mean", if s.mean.Some? then Some(r.floatText(s.mean.value)) else None)
  }

  function DeviationEntry(s: Settings, r: Renderers): Entry {
    Entry("/deviation", if s.deviation.Some? then Some(r.floatText(s.deviation.value)) else None)
  }

  function ReplayFileEntry(s: Settings, r: Renderers): Entry {
    Entry("/replay", if s.replayFile.Some? then Some(r.absolutePath(s.replayFile.value)) else None)
  }

  function ReplayUrlEntry(s: Settings, r: Renderers): Entry {
    Entry("/replay", if s.replayUrl.Some? then Some(r.externalForm(s.replayUrl.value)) else None)
  }

  function SaveReplayEntry(s: Settings): Entry {
    Entry("/savereplay", if s.uid.Some? && s.username.Some? then Some(SaveReplayUrl(s.uid.value, s.username.value)) else None)
  }

  function CountryEntry(s: Settings): Entry {
    Entry("/country", s.country)
  }

  function ClanEntry(s: Settings): Entry {
    Entry("/clan", if s.clan.Some? && s.clan.value != "" then s.clan else None)
  }

  function ReplayIdEntry(s: Settings): Entry {
    Entry("/replayid", if s.replayId.Some? then Some(IntToDecimal(s.replayId.value)) else None)
  }

  /** The entries that carry a value, as flag/value pairs, in table order. */
  function PresentPairs(t: seq<Entry>): (p: seq<Arg>)
    ensures |p| <= |t|
    decreases |t|
  {
    if t == [] then []
    else PresentPairs(t[..|t| - 1]) + EntryPairs(t[|t| - 1])
  }

  function EntryPairs(e: Entry): (p: seq<Arg>)
    ensures |p| <= 1
  {
    if e.value.Some? then [Arg(e.flag, e.value.value)] else []
  }

  /** Pairs written out as consecutive command-line arguments. */
  function Flatten(p: seq<Arg>): (a: seq<string>)
    ensures |a| == 2 * |p|
    decreases |p|
  {
    if p == [] then [] else [p[0].flag, p[0].value] + Flatten(p[1..])
  }

  /** Reads consecutive arguments back as flag/value pairs. */
  function Unflatten(a: seq<string>): seq<Arg>
    decreases |a|
  {
    if |a| < 2 then [] else [Arg(a[0], a[1])] + Unflatten(a[2..])
  }

  /** The first four arguments and the log file, which every command starts with. */
  function Prefix(executable: Path, logFile: Path, r: Renderers): seq<string> {
    [r.absolutePath(executable), "/init", "init_faf.lua", "/nobugreport", "/log", r.absolutePath(logFile)]
  }

  function ExtraArgs(s: Settings): seq<string> {
    if s.additionalArgs.Some? then s.additionalArgs.value else []
  }

  /**
   * What build() returns, or the message of the IllegalStateException it
   * throws: the executable is checked before the log file.
   */
  function Command(s: Settings, r: Renderers): Result<seq<string>, string> {
    if s.executable.None? then Err("executable has not been set")
    else if s.logFile.None? then Err("logFile has not been set")
    else Ok(Prefix(s.executable.value, s.logFile.value, r) + Flatten(PresentPairs(OptionTable(s, r))) + ExtraArgs(s))
  }

  // ===========================================================================
  // Properties of the command

  /** Reading the flattened pairs back gives the pairs. */
  lemma {:induction false} UnflattenFlatten(p: seq<Arg>)
    ensures Unflatten(Flatten(p)) == p
    decreases |p|
  {
    if p != [] {
      var a := Flatten(p);
      assert a[2..] == Flatten(p[1..]);
      UnflattenFlatten(p[1..]);
    }
  }

  lemma {:induction false} FlattenAppend(p: seq<Arg>, q: seq<Arg>)
    ensures Flatten(p + q) == Flatten(p) + Flatten(q)
    decreases |p|
  {
    if p == [] {
      assert p + q == q;
    } else {
      assert (p + q)[0] == p[0];
      assert (p + q)[1..] == p[1..] + q;
      FlattenAppend(p[1..], q);
    }
  }

  /** Filtering keeps the table's order: what earlier entries give comes first. */
  lemma {:induction false} PresentPairsAppend(t: seq<Entry>, u: seq<Entry>)
    ensures PresentPairs(t + u) == PresentPairs(t) + PresentPairs(u)
    decreases |u|
  {
    if u == [] {
      assert t + u == t;
    } else {
      var u' := u[..|u| - 1];
      assert (t + u)[..|t + u| - 1] == t + u';
      assert (t + u)[|t + u| - 1] == u[|u| - 1];
      PresentPairsAppend(t, u');
    }
  }

  /** A pair is passed exactly when an entry of the table carries that flag and value. */
  lemma {:induction false} PresentPairsMembership(t: seq<Entry>, flag: string, value: string)
    ensures Arg(flag, value) in PresentPairs(t) <==> Entry(flag, Some(value)) in t
    decreases |t|
  {
    if t != [] {
      var t' := t[..|t| - 1];
      PresentPairsMembership(t', flag, value);
      assert t == t' + [t[|t| - 1]];
    }
  }

  /** The arguments one entry contributes: its flag and value, or nothing. */
  function EntryArgs(e: Entry): (a: seq<string>)
    ensures a == Flatten(EntryPairs(e))
  {
    if e.value.Some? then [e.flag, e.value.value] else []
  }

  /**
   * One conditional add of build(): when the list held the prefix followed by
   * args, adding the entry's flag and value if it has one appends what that
   * entry contributes.
   */
  lemma Step(e: Entry, prefix: seq<string>, args: seq<string>, before: seq<string>, after: seq<string>)
    requires before == prefix + args
    requires after == if e.value.Some? then before + [e.flag, e.value.value] else before
    ensures after == prefix + (args + EntryArgs(e))
  {
  }

  /** The final addAll of build(), when there are extra arguments. */
  lemma Extra(s: Settings, before: seq<string>, after: seq<string>)
    requires after == if s.additionalArgs.Some? then before + s.additionalArgs.value else before
    ensures after == before + ExtraArgs(s)
  {
    if s.additionalArgs.None? {
      assert before + [] == before;
    }
  }

  lemma PresentSnoc(t: seq<Entry>, e: Entry)
    ensures Flatten(PresentPairs(t + [e])) == Flatten(PresentPairs(t)) + EntryArgs(e)
  {
    assert (t + [e])[..|t|] == t;
    FlattenAppend(PresentPairs(t), EntryPairs(e));
  }

  /** The pairs of a nine-entry table, written out entry by entry. */
  lemma UnrolledOptions(e0: Entry, e1: Entry, e2: Entry, e3: Entry, e4: Entry, e5: Entry, e6: Entry, e7: Entry, e8: Entry)
    ensures Flatten(PresentPairs([e0, e1, e2, e3, e4, e5, e6, e7, e8]))
      == EntryArgs(e0) + EntryArgs(e1) + EntryArgs(e2) + EntryArgs(e3)
      + EntryArgs(e4) + EntryArgs(e5) + EntryArgs(e6) + EntryArgs(e7) + EntryArgs(e8)
  {
    assert [] + [e0] == [e0];
    PresentSnoc([], e0);
    assert [e0] + [e1] == [e0, e1];
    PresentSnoc([e0], e1);
    assert [e0, e1] + [e2] == [e0, e1, e2];
    PresentSnoc([e0, e1], e2);
    assert [e0, e1, e2] + [e3] == [e0, e1, e2, e3];
    PresentSnoc([e0, e1, e2], e3);
    assert [e0, e1, e2, e3] + [e4] == [e0, e1, e2, e3, e4];
    PresentSnoc([e0, e1, e2, e3], e4);
    assert [e0, e1, e2, e3, e4] + [e5] == [e0, e1, e2, e3, e4, e5];
    PresentSnoc([e0, e1, e2, e3, e4], e5);
    assert [e0, e1, e2, e3, e4, e5] + [e6] == [e0, e1, e2, e3, e4, e5, e6];
    PresentSnoc([e0, e1, e2, e3, e4, e5], e6);
    assert [e0, e1, e2, e3, e4, e5, e6] + [e7] == [e0, e1, e2, e3, e4, e5, e6, e7];
    PresentSnoc([e0, e1, e2, e3, e4, e5, e6], e7);
    assert [e0, e1, e2, e3, e4, e5, e6, e7] + [e8] == [e0, e1, e2, e3, e4, e5, e6, e7, e8];
    PresentSnoc([e0, e1, e2, e3, e4, e5, e6, e7], e8);
  }

  /** Without an executable, or else without a log file, build() throws, in that order. */
  lemma CommandErrors(s: Settings, r: Renderers)
    ensures Command(s, r).Err? <==> s.executable.None? || s.logFile.None?
    ensures s.executable.None? ==> Command(s, r).error == "executable has not been set"
    ensures s.executable.Some? && s.logFile.None? ==> Command(s, r).error == "logFile has not been set"
  {
  }

  /**
   * A command splits into the fixed prefix, the flag/value pairs of the set
   * options and the extra arguments, verbatim and last; so its length is
   * 6 + 2 * (number of options passed) + (number of extra arguments).
   */
  lemma CommandShape(s: Settings, r: Renderers)
    requires s.executable.Some? && s.logFile.Some?
    ensures var c := Command(s, r).value; var n := |PresentPairs(OptionTable(s, r))|;
      && |c| == 6 + 2 * n + |ExtraArgs(s)|
      && c[..6] == [r.absolutePath(s.executable.value), "/init", "init_faf.lua", "/nobugreport",
                    "/log", r.absolutePath(s.logFile.value)]
      && Unflatten(c[6..6 + 2 * n]) == PresentPairs(OptionTable(s, r))
      && c[6 + 2 * n..] == ExtraArgs(s)
  {
    var p := PresentPairs(OptionTable(s, r));
    var c := Command(s, r).value;
    var pre := Prefix(s.executable.value, s.logFile.value, r);
    assert c == pre + Flatten(p) + ExtraArgs(s);
    assert c[6..6 + 2 * |p|] == Flatten(p);
    UnflattenFlatten(p);
  }

  /** A flag that only one entry of the table carries is passed with that entry's value, and only then. */
  lemma UniqueFlag(t: seq<Entry>, k: nat)
    requires k < |t|
    requires forall j :: 0 <= j < |t| && j != k ==> t[j].flag != t[k].flag
    ensures forall v :: Arg(t[k].flag, v) in PresentPairs(t) <==> t[k].value == Some(v)
    ensures (exists v :: Arg(t[k].flag, v) in PresentPairs(t)) <==> t[k].value.Some?
  {
    forall v ensures Arg(t[k].flag, v) in PresentPairs(t) <==> t[k].value == Some(v) {
      PresentPairsMembership(t, t[k].flag, v);
    }
    if t[k].value.Some? {
      assert Arg(t[k].flag, t[k].value.value) in PresentPairs(t);
    }
  }

  /**
   * Which of the game's flags a command carries: /gpgnet, /mean and
   * /deviation exactly when their fields are set, /replay when either replay
   * source is.
   */
  lemma GameOptionFlags(s: Settings, r: Renderers)
    ensures var p := PresentPairs(OptionTable(s, r));
      && ((exists v :: Arg("/gpgnet", v) in p) <==> s.localGpgPort.Some?)
      && ((exists v :: Arg("/mean", v) in p) <==> s.mean.Some?)
      && ((exists v :: Arg("/deviation", v) in p) <==> s.deviation.Some?)
      && ((exists v :: Arg("/replay", v) in p) <==> s.replayFile.Some? || s.replayUrl.Some?)
  {
    var t := OptionTable(s, r);
    UniqueFlag(t, 0);
    UniqueFlag(t, 1);
    UniqueFlag(t, 2);
    ReplayFlag(s, r);
  }

  /**
   * Which of the player's flags a command carries: /savereplay when both the
   * user id and the name are set, /clan when the clan is set and not empty,
   * /country and /replayid exactly when their fields are set.
   */
  lemma PlayerOptionFlags(s: Settings, r: Renderers)
    ensures var p := PresentPairs(OptionTable(s, r));
      && ((exists v :: Arg("/savereplay", v) in p) <==> s.uid.Some? && s.username.Some?)
      && ((exists v :: Arg("/country", v) in p) <==> s.country.Some?)
      && ((exists v :: Arg("/clan", v) in p) <==> s.clan.Some? && s.clan.value != "")
      && ((exists v :: Arg("/replayid", v) in p) <==> s.replayId.Some?)
  {
    var t := OptionTable(s, r);
    UniqueFlag(t, 5);
    UniqueFlag(t, 6);
    UniqueFlag(t, 7);
    UniqueFlag(t, 8);
  }

  /** /replay is carried by the replay file's entry and the replay URL's, and no other. */
  lemma ReplayFlag(s: Settings, r: Renderers)
    ensures (exists v :: Arg("/replay", v) in PresentPairs(OptionTable(s, r))) <==> s.replayFile.Some? || s.replayUrl.Some?
  {
    var t := OptionTable(s, r);
    forall v ensures Arg("/replay", v) in PresentPairs(t) <==> Entry("/replay", Some(v)) in t {
      PresentPairsMembership(t, "/replay", v);
    }
    if s.replayFile.Some? {
      assert Entry("/replay", Some(r.absolutePath(s.replayFile.value))) == t[3];
    } else if s.replayUrl.Some? {
      assert Entry("/replay", Some(r.externalForm(s.replayUrl.value))) == t[4];
    }
  }

  /** The values passed with the computed flags. */
  lemma OptionValues(s: Settings, r: Renderers, v: string)
    ensures var p := PresentPairs(OptionTable(s, r));
      && (Arg("/gpgnet", v) in p <==> s.localGpgPort.Some? && v == "127.0.0.1:" + IntToDecimal(s.localGpgPort.value))
      && (Arg("/savereplay", v) in p <==>
            s.uid.Some? && s.username.Some? &&
            v == "gpgnet://localhost/" + IntToDecimal(s.uid.value) + "/" + s.username.value + ".SCFAreplay")
      && (Arg("/clan", v) in p <==> s.clan == Some(v) && v != "")
      && (Arg("/replayid", v) in p <==> s.replayId.Some? && v == IntToDecimal(s.replayId.value))
  {
    var t := OptionTable(s, r);
    UniqueFlag(t, 0);
    UniqueFlag(t, 5);
    UniqueFlag(t, 7);
    UniqueFlag(t, 8);
  }

  /** With both replay sources set, /replay is passed twice: the file, then the URL, side by side. */
  lemma BothReplays(s: Settings, r: Renderers)
    requires s.replayFile.Some? && s.replayUrl.Some?
    ensures var p := PresentPairs(OptionTable(s, r));
      exists i :: 0 <= i < |p| - 1 &&
        p[i] == Arg("/replay", r.absolutePath(s.replayFile.value)) &&
        p[i + 1] == Arg("/replay", r.externalForm(s.replayUrl.value))
  {
    var t := OptionTable(s, r);
    assert t == t[..3] + t[3..5] + t[5..];
    PresentPairsAppend(t[..3] + t[3..5], t[5..]);
    PresentPairsAppend(t[..3], t[3..5]);
    var front := PresentPairs(t[..3]);
    var p := PresentPairs(t);
    assert t[3..5][..1] == [t[3]];
    assert PresentPairs(t[3..5]) == [Arg("/replay", r.absolutePath(s.replayFile.value)),
                                     Arg("/replay", r.externalForm(s.replayUrl.value))];
    assert p[|front|] == Arg("/replay", r.absolutePath(s.replayFile.value));
    assert p[|front| + 1] == Arg("/replay", r.externalForm(s.replayUrl.value));
  }

  // ===========================================================================
  // The builder

  class LaunchCommandBuilder {
    var mean: Option<Float>
    var deviation: Option<Float>
    var country: Option<string>
    var clan: Option<string>
    var username: Option<string>
    var uid: Option<Int32>
    var executable: Option<Path>
    var additionalArgs: Option<seq<string>>
    var localGpgPort: Option<Int32>
    var logFile: Option<Path>
    var replayFile: Option<Path>
    var replayId: Option<Int32>
    var replayUrl: Option<Url>

    function Fields(): Settings
      reads this
    {
      Settings(mean, deviation, country, clan, username, uid, executable, additionalArgs,
               localGpgPort, logFile, replayFile, replayId, replayUrl)
    }

    constructor ()
      ensures Fields() == Unset
    {
      mean, deviation, country, clan, username, uid := None, None, None, None, None, None;
      executable, additionalArgs, localGpgPort, logFile := None, None, None, None;
      replayFile, replayId, replayUrl := None, None, None;
    }

    static method Create() returns (b: LaunchCommandBuilder)
      ensures fresh(b) && b.Fields() == Unset
    {
      b := new LaunchCommandBuilder();
    }

    method LocalGpgPort(port: Int32) returns (b: LaunchCommandBuilder)
      modifies this
      ensures b == this && Fields() == old(Fields()).(localGpgPort := Some(port))
    {
      localGpgPort := Some(port);
      b := this;
    }

    method Executable(executable: Option<Path>) returns (b: LaunchCommandBuilder)
      modifies this
      ensures b == this && Fields() == old(Fields()).(executable := executable)
    {
      this.executable := executable;
      b := this;
    }

    method Uid(uid: Option<Int32>) returns (b: LaunchCommandBuilder)
      modifies this
      ensures b == this && Fields() == old(Fields()).(uid := uid)
    {
      this.uid := uid;
      b := this;
    }

    method Mean(mean: Option<Float>) returns (b: LaunchCommandBuilder)
      modifies this
      ensures b == this && Fields() == old(Fields()).(mean := mean)
    {
      this.mean := mean;
      b := this;
    }

    method Deviation(deviation: Option<Float>) returns (b: LaunchCommandBuilder)
      modifies this
      ensures b == this && Fields() == old(Fields()).(deviation := deviation)
    {
      this.deviation := deviation;
      b := this;
    }

    method Country(country: Option<string>) returns (b: LaunchCommandBuilder)
      modifies this
      ensures b == this && Fields() == old(Fields()).(country := country)
    {
      this.country := country;
      b := this;
    }

    method Clan(clan: Option<string>) returns (b: LaunchCommandBuilder)
      modifies this
      ensures b == this && Fields() == old(Fields()).(clan := clan)
    {
      this.clan := clan;
      b := this;
    }

    method Username(username: Option<string>) returns (b: LaunchCommandBuilder)
      modifies this
      ensures b == this && Fields() == old(Fields()).(username := username)
    {
      this.username := username;
      b := this;
    }

    method LogFile(logFile: Option<Path>) returns (b: LaunchCommandBuilder)
      modifies this
      ensures b == this && Fields() == old(Fields()).(logFile := logFile)
    {
      this.logFile := logFile;
      b := this;
    }

    method AdditionalArgs(additionalArgs: Option<seq<string>>) returns (b: LaunchCommandBuilder)
      modifies this
      ensures b == this && Fields() == old(Fields()).(additionalArgs := additionalArgs)
    {
      this.additionalArgs := additionalArgs;
      b := this;
    }

    method ReplayId(replayId: Option<Int32>) returns (b: LaunchCommandBuilder)
      modifies this
      ensures b == this && Fields() == old(Fields()).(replayId := replayId)
    {
      this.replayId := replayId;
      b := this;
    }

    method ReplayFile(replayFile: Option<Path>) returns (b: LaunchCommandBuilder)
      modifies this
      ensures b == this && Fields() == old(Fields()).(replayFile := replayFile)
    {
      this.replayFile := replayFile;
      b := this;
    }

    method ReplayUrl(replayUrl: Option<Url>) returns (b: LaunchCommandBuilder)
      modifies this
      ensures b == this && Fields() == old(Fields()).(replayUrl := replayUrl)
    {
      this.replayUrl := replayUrl;
      b := this;
    }

    /**
     * build(): the two checks, then the list grown one conditional add at a
     * time. It changes no field.
     */
    method Build(r: Renderers) returns (res: Result<seq<string>, string>)
      ensures res == Command(Fields(), r)
    {
      if executable.None? {
        return Err("executable has not been set");
      }
      if logFile.None? {
        return Err("logFile has not been set");
      }
      ghost var s := Fields();
      var command := [r.absolutePath(executable.value), "/init", "init_faf.lua", "/nobugreport"];
      if logFile.Some? {
        command := command + ["/log", r.absolutePath(logFile.value)];
      }
      ghost var prefix := command;
      assert prefix == Prefix(executable.value, logFile.value, r);
      ghost var args: seq<string> := [];
      ghost var before := command;
      if localGpgPort.Some? {
        command := command + ["/gpgnet", "127.0.0.1:" + IntToDecimal(localGpgPort.value)];
      }
      Step(GpgNetEntry(s), prefix, args, before, command);
      args := args + EntryArgs(GpgNetEntry(s));
      assert args == EntryArgs(GpgNetEntry(s));
      before := command;
      if mean.Some? {
        command := command + ["/mean", r.floatText(mean.value)];
      }
      Step(MeanEntry(s, r), prefix, args, before, command);
      args := args + EntryArgs(MeanEntry(s, r));
      before := command;
      if deviation.Some? {
        command := command + ["/deviation", r.floatText(deviation.value)];
      }
      Step(DeviationEntry(s, r), prefix, args, before, command);
      args := args + EntryArgs(DeviationEntry(s, r));
      before := command;
      if replayFile.Some? {
        command := command + ["/replay", r.absolutePath(replayFile.value)];
      }
      Step(ReplayFileEntry(s, r), prefix, args, before, command);
      args := args + EntryArgs(ReplayFileEntry(s, r));
      before := command;
      if replayUrl.Some? {
        command := command + ["/replay", r.externalForm(replayUrl.value)];
      }
      Step(ReplayUrlEntry(s, r), prefix, args, before, command);
      args := args + EntryArgs(ReplayUrlEntry(s, r));
      before := command;
      if uid.Some? && username.Some? {
        command := command + ["/savereplay", "gpgnet://localhost/" + IntToDecimal(uid.value) + "/" + username.value + ".SCFAreplay"];
      }
      Step(SaveReplayEntry(s), prefix, args, before, command);
      args := args + EntryArgs(SaveReplayEntry(s));
      before := command;
      if country.Some? {
        command := command + ["/country", country.value];
      }
      Step(CountryEntry(s), prefix, args, before, command);
      args := args + EntryArgs(CountryEntry(s));
      before := command;
      if clan.Some? && clan.value != "" {
        command := command + ["/clan", clan.value];
      }
      Step(ClanEntry(s), prefix, args, before, command);
      args := args + EntryArgs(ClanEntry(s));
      before := command;
      if replayId.Some? {
        command := command + ["/replayid", IntToDecimal(replayId.value)];
      }
      Step(ReplayIdEntry(s), prefix, args, before, command);
      args := args + EntryArgs(ReplayIdEntry(s));
      UnrolledOptions(GpgNetEntry(s), MeanEntry(s, r), DeviationEntry(s, r), ReplayFileEntry(s, r), ReplayUrlEntry(s, r),
                      SaveReplayEntry(s), CountryEntry(s), ClanEntry(s), ReplayIdEntry(s));
      before := command;
      if additionalArgs.Some? {
        command := command + additionalArgs.value;
      }
      Extra(s, before, command);
      res := Ok(command);
    }
  }
}
