/** Mount options: the ones that are flags and the ones that are passed on as text. */
module MountOptions {
  import opened Text

  datatype MsFlag =
    | RdOnly | NoSuid | NoDev | NoExec | Synchronous | DirSync | Remount | MandLock | NoAtime | NoDirAtime
    | Bind | Rec | Unbindable | Private | Shared | Slave | RelAtime | StrictAtime

  /** Whether an option means to clear its flags, and the flags. */
  datatype Entry = Entry(clear: bool, flags: set<MsFlag>)

  const FLAGS: map<string, Entry> := map[
    "defaults" := Entry(false, {}),
    "ro" := Entry(false, {RdOnly}),
    "rw" := Entry(true, {RdOnly}),
    "suid" := Entry(true, {NoSuid}),
    "nosuid" := Entry(false, {NoSuid}),
    "dev" := Entry(true, {NoDev}),
    "nodev" := Entry(false, {NoDev}),
    "exec" := Entry(true, {NoExec}),
    "noexec" := Entry(false, {NoExec}),
    "sync" := Entry(false, {Synchronous}),
    "async" := Entry(true, {Synchronous}),
    "dirsync" := Entry(false, {DirSync}),
    "remount" := Entry(false, {Remount}),
    "mand" := Entry(false, {MandLock}),
    "nomand" := Entry(true, {MandLock}),
    "atime" := Entry(true, {NoAtime}),
    "noatime" := Entry(false, {NoAtime}),
    "diratime" := Entry(true, {NoDirAtime}),
    "nodiratime" := Entry(false, {NoDirAtime}),
    "bind" := Entry(false, {Bind}),
    "rbind" := Entry(false, {Bind, Rec}),
    "unbindable" := Entry(false, {Unbindable}),
    "runbindable" := Entry(false, {Unbindable, Rec}),
    "private" := Entry(false, {Private}),
    "rprivate" := Entry(false, {Private, Rec}),
    "shared" := Entry(false, {Shared}),
    "rshared" := Entry(false, {Shared, Rec}),
    "slave" := Entry(false, {Slave}),
    "rslave" := Entry(false, {Slave, Rec}),
    "relatime" := Entry(false, {RelAtime}),
    "norelatime" := Entry(true, {RelAtime}),
    "strictatime" := Entry(false, {StrictAtime}),
    "nostrictatime" := Entry(true, {StrictAtime})
  ]

  /** The union of the recognised options' flags; the agent's table is FLAGS. */
  function FlagsOf(opts: seq<string>, table: map<string, Entry>): set<MsFlag> {
    set opt, flag | opt in opts && opt != "" && opt in table && flag in table[opt].flags :: flag
  }

  /** The other options, in order; empty ones are dropped. */
  function Unrecognised(opts: seq<string>, table: map<string, Entry>): (r: seq<string>)
    ensures forall opt :: opt in r <==> opt in opts && opt != "" && opt !in table
  {
    if opts == [] then []
    else
      var last := opts[|opts| - 1];
      Unrecognised(opts[..|opts| - 1], table) + if last == "" || last in table then [] else [last]
  }

  method ParseMountFlagsAndOptions(opts: seq<string>, table: map<string, Entry>)
    returns (flags: set<MsFlag>, options: string)
    ensures flags == FlagsOf(opts, table)
    ensures options == Join(Unrecognised(opts, table), ',')
  {
    hide FlagsOf, Unrecognised, Join;
    flags, options := {}, "";
    NoOptions(table);
    assert opts[..0] == [];
    for i := 0 to |opts|
      invariant flags == FlagsOf(opts[..i], table)
      invariant options == Join(Unrecognised(opts[..i], table), ',')
    {
      var opt := opts[i];
      assert opts[..i + 1] == opts[..i] + [opt];
      OneMore(opts[..i], opt, table);
      if opt != "" {
        if opt in table {
          flags := flags + table[opt].flags;
        } else if options != "" {
          options := options + "," + opt;
        } else {
          options := options + opt;
        }
      }
    }
    assert opts[..|opts|] == opts;
  }

  lemma NoOptions(table: map<string, Entry>)
    ensures FlagsOf([], table) == {} && Join(Unrecognised([], table), ',') == ""
  {
  }

  /** What one more option adds to the flags and to the text. */
  lemma OneMore(opts: seq<string>, opt: string, table: map<string, Entry>)
    ensures FlagsOf(opts + [opt], table)
         == FlagsOf(opts, table) + if opt != "" && opt in table then table[opt].flags else {}
    ensures var text := Join(Unrecognised(opts, table), ',');
            Join(Unrecognised(opts + [opt], table), ',')
              == if opt == "" || opt in table then text else if text == "" then opt else text + "," + opt
  {
    assert (opts + [opt])[..|opts|] == opts;
    var rest := Unrecognised(opts, table);
    JoinIsEmptyExactly(rest, ',');
    JoinSnoc(rest, opt, ',');
    assert rest + [] == rest;
  }

  lemma JoinIsEmptyExactly(parts: seq<string>, sep: char)
    requires "" !in parts
    ensures Join(parts, sep) == "" <==> parts == []
  {
  }

  /** Order and repetition of options do not matter to the flags. */
  lemma FlagsIgnoreOrder(a: seq<string>, b: seq<string>, table: map<string, Entry>)
    requires forall opt :: opt in a <==> opt in b
    ensures FlagsOf(a, table) == FlagsOf(b, table)
  {
    forall flag ensures flag in FlagsOf(a, table) <==> flag in FlagsOf(b, table) {
      if opt :| opt in a && opt != "" && opt in table && flag in table[opt].flags {
        assert opt in b;
      }
      if opt :| opt in b && opt != "" && opt in table && flag in table[opt].flags {
        assert opt in a;
      }
    }
  }

  // Splitting the text again

  lemma {:induction false} PiecesAdd(a: string, b: string, sep: char)
    ensures |Split(a + [sep] + b, sep)| == |Split(a, sep)| + |Split(b, sep)|
  {
    var s := a + [sep] + b;
    if a == "" {
      assert s[1..] == b;
    } else {
      assert s[1..] == a[1..] + [sep] + b;
      PiecesAdd(a[1..], b, sep);
    }
  }

  lemma {:induction false} OnePieceExactly(s: string, sep: char)
    ensures |Split(s, sep)| == 1 <==> sep !in s
  {
    if s != "" {
      OnePieceExactly(s[1..], sep);
    }
  }

  lemma {:induction false} PiecesOfJoin(parts: seq<string>, sep: char)
    requires parts != []
    ensures |Split(Join(parts, sep), sep)| >= |parts|
    ensures |Split(Join(parts, sep), sep)| == |parts| <==> forall p | p in parts :: sep !in p
  {
    OnePieceExactly(parts[0], sep);
    if |parts| > 1 {
      PiecesOfJoin(parts[1..], sep);
      PiecesAdd(parts[0], Join(parts[1..], sep), sep);
      assert forall p | p in parts :: p == parts[0] || p in parts[1..];
    }
  }

  /** Splitting the option text on commas gives back the unrecognised options, in order, exactly when none of them
      contains a comma (and there is one). */
  lemma SplitGivesBackExactly(opts: seq<string>, table: map<string, Entry>)
    ensures var rest := Unrecognised(opts, table);
            Split(Join(rest, ','), ',') == rest <==> rest != [] && forall p | p in rest :: ',' !in p
  {
    var rest := Unrecognised(opts, table);
    if rest != [] {
      PiecesOfJoin(rest, ',');
      if forall p | p in rest :: ',' !in p {
        SplitOfJoin(rest, ',');
      }
    }
  }

  // What the table's first column means

  predicate Clears(opt: string, flag: MsFlag, table: map<string, Entry>) {
    opt != "" && opt in table && table[opt].clear && flag in table[opt].flags
  }

  predicate Sets(opt: string, flag: MsFlag, table: map<string, Entry>) {
    opt != "" && opt in table && !table[opt].clear && flag in table[opt].flags
  }

  /** Option after option, a clearing one takes its flags away again. */
  function Intended(opts: seq<string>, table: map<string, Entry>): set<MsFlag> {
    if opts == [] then {}
    else
      var before, last := Intended(opts[..|opts| - 1], table), opts[|opts| - 1];
      if last == "" || last !in table then before
      else if table[last].clear then before - table[last].flags
      else before + table[last].flags
  }

  /** After every option that clears the flag, another one sets it again. */
  ghost predicate SetAgain(opts: seq<string>, flag: MsFlag, table: map<string, Entry>) {
    forall i | 0 <= i < |opts| && Clears(opts[i], flag, table) ::
      exists j :: i < j < |opts| && Sets(opts[j], flag, table)
  }

  lemma FlagsOfLast(front: seq<string>, last: string, flag: MsFlag, table: map<string, Entry>)
    ensures flag in FlagsOf(front + [last], table)
       <==> flag in FlagsOf(front, table) || Sets(last, flag, table) || Clears(last, flag, table)
  {
    OneMore(front, last, table);
  }

  lemma SetAgainInFront(front: seq<string>, last: string, flag: MsFlag, table: map<string, Entry>)
    requires SetAgain(front + [last], flag, table) && !Sets(last, flag, table)
    ensures SetAgain(front, flag, table)
  {
    hide Sets, Clears;
    var opts := front + [last];
    forall i | 0 <= i < |front| && Clears(front[i], flag, table)
      ensures exists j :: i < j < |front| && Sets(front[j], flag, table)
    {
      assert Clears(opts[i], flag, table);
      var j :| i < j < |opts| && Sets(opts[j], flag, table);
      assert Sets(front[j], flag, table);
    }
  }

  lemma SetAgainStays(front: seq<string>, last: string, flag: MsFlag, table: map<string, Entry>)
    requires SetAgain(front, flag, table) && !Clears(last, flag, table)
    ensures SetAgain(front + [last], flag, table)
  {
    hide Sets, Clears;
    var opts := front + [last];
    forall i | 0 <= i < |opts| && Clears(opts[i], flag, table)
      ensures exists j :: i < j < |opts| && Sets(opts[j], flag, table)
    {
      assert Clears(front[i], flag, table);
      var j :| i < j < |front| && Sets(front[j], flag, table);
      assert Sets(opts[j], flag, table);
    }
  }

  lemma SetAtTheEnd(front: seq<string>, last: string, flag: MsFlag, table: map<string, Entry>)
    ensures Sets(last, flag, table) ==> SetAgain(front + [last], flag, table)
    ensures Clears(last, flag, table) ==> !SetAgain(front + [last], flag, table)
  {
    var opts := front + [last];
    assert opts[|front|] == last;
  }

  lemma SetAgainLast(front: seq<string>, last: string, flag: MsFlag, table: map<string, Entry>)
    ensures SetAgain(front + [last], flag, table)
       <==> Sets(last, flag, table) || (!Clears(last, flag, table) && SetAgain(front, flag, table))
  {
    SetAtTheEnd(front, last, flag, table);
    if SetAgain(front + [last], flag, table) && !Sets(last, flag, table) {
      SetAgainInFront(front, last, flag, table);
    }
    if !Clears(last, flag, table) && SetAgain(front, flag, table) {
      SetAgainStays(front, last, flag, table);
    }
  }

  /** One flag: the code's union and the intended meaning agree exactly when the flag, once cleared, is set again. */
  lemma {:induction false} FlagAsIntendedExactly(opts: seq<string>, flag: MsFlag, table: map<string, Entry>)
    ensures flag in Intended(opts, table) ==> flag in FlagsOf(opts, table)
    ensures (flag in FlagsOf(opts, table) <==> flag in Intended(opts, table)) <==> SetAgain(opts, flag, table)
  {
    hide FlagsOf, SetAgain;
    if opts == [] {
      NoOptions(table);
      NeverCleared([], flag, table);
    } else {
      var front, last := opts[..|opts| - 1], opts[|opts| - 1];
      assert front + [last] == opts;
      FlagAsIntendedExactly(front, flag, table);
      FlagsOfLast(front, last, flag, table);
      SetAgainLast(front, last, flag, table);
    }
  }

  lemma NeverCleared(opts: seq<string>, flag: MsFlag, table: map<string, Entry>)
    requires forall opt | opt in opts :: !Clears(opt, flag, table)
    ensures SetAgain(opts, flag, table)
  {
  }

  /** The flags are what the table means exactly when every flag of every clearing option is set by a later option
      that does not clear. */
  lemma FlagsAsIntendedExactly(opts: seq<string>, table: map<string, Entry>)
    ensures FlagsOf(opts, table) == Intended(opts, table) <==> forall flag :: SetAgain(opts, flag, table)
  {
    hide FlagsOf, Intended, SetAgain;
    forall flag
      ensures flag in Intended(opts, table) ==> flag in FlagsOf(opts, table)
      ensures (flag in FlagsOf(opts, table) <==> flag in Intended(opts, table)) <==> SetAgain(opts, flag, table)
    {
      FlagAsIntendedExactly(opts, flag, table);
    }
  }

  // The table, flag by flag

  /** The options that stand for a flag. */
  function Standing(flag: MsFlag): set<string> {
    match flag
    case RdOnly => {"ro", "rw"}
    case NoSuid => {"suid", "nosuid"}
    case NoDev => {"dev", "nodev"}
    case NoExec => {"exec", "noexec"}
    case Synchronous => {"sync", "async"}
    case DirSync => {"dirsync"}
    case Remount => {"remount"}
    case MandLock => {"mand", "nomand"}
    case NoAtime => {"atime", "noatime"}
    case NoDirAtime => {"diratime", "nodiratime"}
    case Bind => {"bind", "rbind"}
    case Rec => {"rbind", "runbindable", "rprivate", "rshared", "rslave"}
    case Unbindable => {"unbindable", "runbindable"}
    case Private => {"private", "rprivate"}
    case Shared => {"shared", "rshared"}
    case Slave => {"slave", "rslave"}
    case RelAtime => {"relatime", "norelatime"}
    case StrictAtime => {"strictatime", "nostrictatime"}
  }

  lemma AccessOptions(opt: string)
    ensures opt in FLAGS && RdOnly in FLAGS[opt].flags ==> opt == "ro" || opt == "rw"
    ensures opt in FLAGS && NoSuid in FLAGS[opt].flags ==> opt == "suid" || opt == "nosuid"
  {
  }

  lemma PermissionOptions(opt: string)
    ensures opt in FLAGS && NoDev in FLAGS[opt].flags ==> opt == "dev" || opt == "nodev"
    ensures opt in FLAGS && NoExec in FLAGS[opt].flags ==> opt == "exec" || opt == "noexec"
  {
  }

  lemma PermissionFlags()
    ensures "ro" in FLAGS && RdOnly in FLAGS["ro"].flags
    ensures "rw" in FLAGS && RdOnly in FLAGS["rw"].flags
    ensures "suid" in FLAGS && NoSuid in FLAGS["suid"].flags
    ensures "nosuid" in FLAGS && NoSuid in FLAGS["nosuid"].flags
    ensures "dev" in FLAGS && NoDev in FLAGS["dev"].flags
    ensures "nodev" in FLAGS && NoDev in FLAGS["nodev"].flags
    ensures "exec" in FLAGS && NoExec in FLAGS["exec"].flags
    ensures "noexec" in FLAGS && NoExec in FLAGS["noexec"].flags
  {
  }

  lemma SyncOptions(opt: string)
    ensures opt in FLAGS && Synchronous in FLAGS[opt].flags ==> opt == "sync" || opt == "async"
    ensures opt in FLAGS && DirSync in FLAGS[opt].flags ==> opt == "dirsync"
    ensures opt in FLAGS && Remount in FLAGS[opt].flags ==> opt == "remount"
    ensures opt in FLAGS && MandLock in FLAGS[opt].flags ==> opt == "mand" || opt == "nomand"
  {
  }

  lemma SyncFlags()
    ensures "sync" in FLAGS && Synchronous in FLAGS["sync"].flags
    ensures "async" in FLAGS && Synchronous in FLAGS["async"].flags
    ensures "dirsync" in FLAGS && DirSync in FLAGS["dirsync"].flags
    ensures "remount" in FLAGS && Remount in FLAGS["remount"].flags
    ensures "mand" in FLAGS && MandLock in FLAGS["mand"].flags
    ensures "nomand" in FLAGS && MandLock in FLAGS["nomand"].flags
  {
  }

  lemma TimeOptions(opt: string)
    ensures opt in FLAGS && NoAtime in FLAGS[opt].flags ==> opt == "atime" || opt == "noatime"
    ensures opt in FLAGS && NoDirAtime in FLAGS[opt].flags ==> opt == "diratime" || opt == "nodiratime"
    ensures opt in FLAGS && RelAtime in FLAGS[opt].flags ==> opt == "relatime" || opt == "norelatime"
    ensures opt in FLAGS && StrictAtime in FLAGS[opt].flags ==> opt == "strictatime" || opt == "nostrictatime"
  {
  }

  lemma TimeFlags()
    ensures "atime" in FLAGS && NoAtime in FLAGS["atime"].flags
    ensures "noatime" in FLAGS && NoAtime in FLAGS["noatime"].flags
    ensures "diratime" in FLAGS && NoDirAtime in FLAGS["diratime"].flags
    ensures "nodiratime" in FLAGS && NoDirAtime in FLAGS["nodiratime"].flags
    ensures "relatime" in FLAGS && RelAtime in FLAGS["relatime"].flags
    ensures "norelatime" in FLAGS && RelAtime in FLAGS["norelatime"].flags
    ensures "strictatime" in FLAGS && StrictAtime in FLAGS["strictatime"].flags
    ensures "nostrictatime" in FLAGS && StrictAtime in FLAGS["nostrictatime"].flags
  {
  }

  lemma BindOptions(opt: string)
    ensures opt in FLAGS && Bind in FLAGS[opt].flags ==> opt == "bind" || opt == "rbind"
    ensures opt in FLAGS && Rec in FLAGS[opt].flags ==>
              || opt == "rbind" || opt == "runbindable" || opt == "rprivate" || opt == "rshared" || opt == "rslave"
    ensures opt in FLAGS && Unbindable in FLAGS[opt].flags ==> opt == "unbindable" || opt == "runbindable"
  {
  }

  lemma BindFlags()
    ensures "bind" in FLAGS && Bind in FLAGS["bind"].flags
    ensures "rbind" in FLAGS && Bind in FLAGS["rbind"].flags
    ensures "rbind" in FLAGS && Rec in FLAGS["rbind"].flags
    ensures "runbindable" in FLAGS && Rec in FLAGS["runbindable"].flags
    ensures "rprivate" in FLAGS && Rec in FLAGS["rprivate"].flags
    ensures "rshared" in FLAGS && Rec in FLAGS["rshared"].flags
    ensures "rslave" in FLAGS && Rec in FLAGS["rslave"].flags
    ensures "unbindable" in FLAGS && Unbindable in FLAGS["unbindable"].flags
    ensures "runbindable" in FLAGS && Unbindable in FLAGS["runbindable"].flags
  {
  }

  lemma PropagationOptions(opt: string)
    ensures opt in FLAGS && Private in FLAGS[opt].flags ==> opt == "private" || opt == "rprivate"
    ensures opt in FLAGS && Shared in FLAGS[opt].flags ==> opt == "shared" || opt == "rshared"
    ensures opt in FLAGS && Slave in FLAGS[opt].flags ==> opt == "slave" || opt == "rslave"
  {
  }

  lemma PropagationFlags()
    ensures "private" in FLAGS && Private in FLAGS["private"].flags
    ensures "rprivate" in FLAGS && Private in FLAGS["rprivate"].flags
    ensures "shared" in FLAGS && Shared in FLAGS["shared"].flags
    ensures "rshared" in FLAGS && Shared in FLAGS["rshared"].flags
    ensures "slave" in FLAGS && Slave in FLAGS["slave"].flags
    ensures "rslave" in FLAGS && Slave in FLAGS["rslave"].flags
  {
  }

  lemma EntryHas(opt: string, flag: MsFlag)
    ensures opt in FLAGS && flag in FLAGS[opt].flags <==> opt in Standing(flag)
  {
    hide FLAGS;
    if flag.RdOnly? || flag.NoSuid? || flag.NoDev? || flag.NoExec? {
      AccessOptions(opt);
      PermissionOptions(opt);
      PermissionFlags();
    } else if flag.Synchronous? || flag.DirSync? || flag.Remount? || flag.MandLock? {
      SyncOptions(opt);
      SyncFlags();
    } else if flag.NoAtime? || flag.NoDirAtime? || flag.RelAtime? || flag.StrictAtime? {
      TimeOptions(opt);
      TimeFlags();
    } else if flag.Bind? || flag.Rec? || flag.Unbindable? {
      BindOptions(opt);
      BindFlags();
    } else {
      PropagationOptions(opt);
      PropagationFlags();
    }
  }

  const PLAIN: set<string> := {
    "ro", "rw", "suid", "nosuid", "dev", "nodev", "exec", "noexec", "sync", "async", "dirsync", "remount", "mand",
    "nomand"
  }

  const OTHERS: set<string> := {
    "atime", "noatime", "diratime", "nodiratime", "bind", "rbind", "unbindable", "runbindable", "private",
    "rprivate", "shared", "rshared", "slave", "rslave", "relatime", "norelatime", "strictatime", "nostrictatime"
  }

  lemma OptionNames(opt: string)
    ensures opt in FLAGS ==> opt == "defaults" || opt in PLAIN || opt in OTHERS
    ensures "defaults" in FLAGS && FLAGS["defaults"].flags == {} && "" !in FLAGS
  {
  }

  lemma PlainStands(opt: string)
    requires opt in PLAIN
    ensures exists flag :: opt in Standing(flag)
  {
    assert opt in Standing(RdOnly) || opt in Standing(NoSuid) || opt in Standing(NoDev) || opt in Standing(NoExec)
      || opt in Standing(Synchronous) || opt in Standing(DirSync) || opt in Standing(Remount)
      || opt in Standing(MandLock);
  }

  lemma OtherStands(opt: string)
    requires opt in OTHERS
    ensures exists flag :: opt in Standing(flag)
  {
    assert opt in Standing(NoAtime) || opt in Standing(NoDirAtime) || opt in Standing(Bind)
      || opt in Standing(Unbindable) || opt in Standing(Private) || opt in Standing(Shared) || opt in Standing(Slave)
      || opt in Standing(RelAtime) || opt in Standing(StrictAtime);
  }

  lemma EveryOptionStands(opt: string)
    ensures opt in FLAGS && opt != "defaults" ==> exists flag :: opt in Standing(flag)
    ensures "defaults" in FLAGS && FLAGS["defaults"].flags == {} && "" !in FLAGS
  {
    OptionNames(opt);
    hide FLAGS, Standing, PLAIN, OTHERS;
    if opt in PLAIN {
      PlainStands(opt);
    } else if opt in OTHERS {
      OtherStands(opt);
    }
  }

  /** A flag is given exactly when one of its options is there; and an option is passed on as text exactly when it
      stands for no flag and is not "defaults". */
  lemma FlagsByOption(opts: seq<string>)
    ensures forall flag :: flag in FlagsOf(opts, FLAGS) <==> exists opt :: opt in opts && opt in Standing(flag)
    ensures forall opt :: opt in Unrecognised(opts, FLAGS)
                     <==> opt in opts && opt != "" && opt != "defaults" && forall flag :: opt !in Standing(flag)
  {
    hide FLAGS, Standing;
    forall opt, flag ensures opt in FLAGS && flag in FLAGS[opt].flags <==> opt in Standing(flag) {
      EntryHas(opt, flag);
    }
    forall opt ensures opt in FLAGS <==> opt == "defaults" || exists flag :: opt in Standing(flag) {
      EveryOptionStands(opt);
    }
    EveryOptionStands("");
    forall flag ensures flag in FlagsOf(opts, FLAGS) <==> exists opt :: opt in opts && opt in Standing(flag) {
      if opt :| opt in opts && opt in Standing(flag) {
        assert opt in FLAGS && opt != "";
      }
    }
  }

  /** The options that mean to clear their flags. */
  lemma ClearingOptions(opt: string)
    ensures opt in FLAGS && FLAGS[opt].clear
       <==> opt in {"rw", "suid", "dev", "exec", "async", "nomand", "atime", "diratime", "norelatime", "nostrictatime"}
  {
  }

  lemma ReadOnlyEntries()
    ensures "ro" in FLAGS && FLAGS["ro"] == Entry(false, {RdOnly})
    ensures "rw" in FLAGS && FLAGS["rw"] == Entry(true, {RdOnly})
  {
  }

  /** An input on which they differ: a read-only mount made writable again. */
  lemma ReadWriteStaysReadOnly()
    ensures FlagsOf(["ro", "rw"], FLAGS) == {RdOnly} && Intended(["ro", "rw"], FLAGS) == {}
  {
    hide FLAGS;
    ReadOnlyEntries();
    assert ["ro", "rw"][..1] == ["ro"] && ["ro"][..0] == [];
    assert Intended(["ro"], FLAGS) == {RdOnly};
    assert RdOnly in FLAGS["ro"].flags && "ro" in ["ro", "rw"];
  }
}
