/** Kernel uevents: one datagram is NUL-separated text, a header followed by KEY=VALUE fields. */
module Uevents {
  import opened Basics
  import opened Text

  const U_EVENT_ACTION := "ACTION"
  const U_EVENT_DEV_PATH := "DEVPATH"
  const U_EVENT_SUB_SYSTEM := "SUBSYSTEM"
  const U_EVENT_SEQ_NUM := "SEQNUM"
  const U_EVENT_DEV_NAME := "DEVNAME"
  const U_EVENT_INTERFACE := "INTERFACE"

  datatype Uevent = Uevent(
    action: string, devpath: string, devname: string, subsystem: string, seqnum: string, interfaceName: string)

  const DEFAULT := Uevent("", "", "", "", "", "")

  /** The parts of s before and after its first '=', if it has one. */
  function SplitOnce(s: string): Option<(string, string)> {
    if s == "" then None
    else if s[0] == '=' then Some(("", s[1..]))
    else
      match SplitOnce(s[1..])
      case None => None
      case Some(kv) => Some(([s[0]] + kv.0, kv.1))
  }

  function SetField(event: Uevent, arg: string): Uevent {
    match SplitOnce(arg)
    case None => event
    case Some((key, value)) =>
      if key == U_EVENT_ACTION then event.(action := value)
      else if key == U_EVENT_DEV_NAME then event.(devname := value)
      else if key == U_EVENT_SUB_SYSTEM then event.(subsystem := value)
      else if key == U_EVENT_DEV_PATH then event.(devpath := value)
      else if key == U_EVENT_SEQ_NUM then event.(seqnum := value)
      else if key == U_EVENT_INTERFACE then event.(interfaceName := value)
      else event
  }

  function SetFields(event: Uevent, args: seq<string>): Uevent {
    if args == [] then event else SetField(SetFields(event, args[..|args| - 1]), args[|args| - 1])
  }

  method ParseUevent(message: string) returns (event: Uevent)
    ensures event == SetFields(DEFAULT, Split(message, '\0')[1..])
  {
    var args := Split(message, '\0')[1..];
    event := DEFAULT;
    for i := 0 to |args|
      invariant event == SetFields(DEFAULT, args[..i])
    {
      event := SetField(event, args[i]);
      assert args[..i + 1][..i] == args[..i];
    }
    assert args[..|args|] == args;
  }

  // What the kernel sends

  /** A field of a message: a KEY=VALUE pair, or text without any '='. */
  datatype Field = Pair(key: string, value: string) | Bare(text: string)

  ghost predicate WellFormed(f: Field) {
    match f
    case Pair(k, v) => '=' !in k && '\0' !in k && '\0' !in v
    case Bare(t) => '=' !in t && '\0' !in t
  }

  function RenderField(f: Field): string {
    match f
    case Pair(k, v) => k + "=" + v
    case Bare(t) => t
  }

  function RenderFields(fields: seq<Field>): seq<string> {
    seq(|fields|, i requires 0 <= i < |fields| => RenderField(fields[i]))
  }

  function Render(header: string, fields: seq<Field>): string {
    Join([header] + RenderFields(fields), '\0')
  }

  /** The value of the last pair with the given key, or the empty string when there is none. */
  function LastValue(fields: seq<Field>, key: string): string {
    if fields == [] then ""
    else
      var last := fields[|fields| - 1];
      if last.Pair? && last.key == key then last.value else LastValue(fields[..|fields| - 1], key)
  }

  lemma {:induction false} SplitOncePair(k: string, v: string)
    requires '=' !in k
    ensures SplitOnce(k + "=" + v) == Some((k, v))
  {
    var s := k + "=" + v;
    if k == "" {
      assert s[1..] == v;
    } else {
      assert s[1..] == k[1..] + "=" + v;
      SplitOncePair(k[1..], v);
      assert [k[0]] + k[1..] == k;
    }
  }

  lemma {:induction false} SplitOnceBare(t: string)
    requires '=' !in t
    ensures SplitOnce(t) == None
  {
    if t != "" {
      SplitOnceBare(t[1..]);
    }
  }

  ghost predicate Carries(event: Uevent, fields: seq<Field>) {
    && event.action == LastValue(fields, U_EVENT_ACTION)
    && event.devpath == LastValue(fields, U_EVENT_DEV_PATH)
    && event.devname == LastValue(fields, U_EVENT_DEV_NAME)
    && event.subsystem == LastValue(fields, U_EVENT_SUB_SYSTEM)
    && event.seqnum == LastValue(fields, U_EVENT_SEQ_NUM)
    && event.interfaceName == LastValue(fields, U_EVENT_INTERFACE)
  }

  lemma {:induction false} SetFieldsCarries(fields: seq<Field>)
    requires forall f | f in fields :: WellFormed(f)
    ensures Carries(SetFields(DEFAULT, RenderFields(fields)), fields)
  {
    if fields != [] {
      var front, last := fields[..|fields| - 1], fields[|fields| - 1];
      SetFieldsCarries(front);
      var args := RenderFields(fields);
      assert args[..|args| - 1] == RenderFields(front);
      assert WellFormed(last);
      match last
      case Pair(k, v) => SplitOncePair(k, v);
      case Bare(t) => SplitOnceBare(t);
    }
  }

  /** Parsing a rendered message recovers each of the six fields, the last occurrence winning. */
  lemma ParseOfRender(header: string, fields: seq<Field>)
    requires '\0' !in header
    requires forall f | f in fields :: WellFormed(f)
    ensures Carries(SetFields(DEFAULT, Split(Render(header, fields), '\0')[1..]), fields)
  {
    var parts := [header] + RenderFields(fields);
    forall p | p in parts ensures '\0' !in p {
      if p != header {
        var i :| 0 <= i < |fields| && p == RenderField(fields[i]);
        assert WellFormed(fields[i]);
      }
    }
    SplitOfJoin(parts, '\0');
    assert parts[1..] == RenderFields(fields);
    SetFieldsCarries(fields);
  }

  // In the kernel's own words

  /** What a part says about a key: the text behind "KEY=", for a key without any '='. */
  ghost predicate Gives(arg: string, key: string) {
    |key| < |arg| && arg[..|key|] == key && arg[|key|] == '='
  }

  lemma {:induction false} SplitOnceAt(arg: string, key: string)
    requires '=' !in key
    ensures Gives(arg, key) <==> SplitOnce(arg).Some? && SplitOnce(arg).value.0 == key
    ensures Gives(arg, key) ==> SplitOnce(arg).value.1 == arg[|key| + 1..]
    decreases |arg|
  {
    if arg != "" && arg[0] != '=' {
      if key == "" {
        SplitOnceFront(arg);
      } else {
        SplitOnceAt(arg[1..], key[1..]);
        assert arg == [arg[0]] + arg[1..] && key == [key[0]] + key[1..];
        if Gives(arg, key) {
          assert arg[1..][..|key| - 1] == arg[..|key|][1..] == key[1..];
          assert arg[1..][|key| - 1] == arg[|key|];
          assert arg[1..][|key|..] == arg[|key| + 1..];
        }
        if SplitOnce(arg).Some? && SplitOnce(arg).value.0 == key {
          assert SplitOnce(arg[1..]).value.0 == key[1..] && arg[0] == key[0];
          assert arg[..|key|] == [arg[0]] + arg[1..][..|key| - 1] == key;
          assert arg[|key|] == arg[1..][|key| - 1];
        }
      }
    }
  }

  lemma SplitOnceFront(arg: string)
    requires arg != "" && arg[0] != '='
    ensures SplitOnce(arg).Some? ==> SplitOnce(arg).value.0 != ""
  {
  }

  /** The text behind the last part that begins with "KEY=", or nothing. */
  ghost function LastGiven(args: seq<string>, key: string): string {
    if args == [] then ""
    else
      var last := args[|args| - 1];
      if Gives(last, key) then last[|key| + 1..] else LastGiven(args[..|args| - 1], key)
  }

  lemma OneGiven(event: Uevent, arg: string)
    ensures var e := SetField(event, arg);
            && e.action == (if Gives(arg, "ACTION") then arg[7..] else event.action)
            && e.devpath == (if Gives(arg, "DEVPATH") then arg[8..] else event.devpath)
            && e.devname == (if Gives(arg, "DEVNAME") then arg[8..] else event.devname)
            && e.subsystem == (if Gives(arg, "SUBSYSTEM") then arg[10..] else event.subsystem)
            && e.seqnum == (if Gives(arg, "SEQNUM") then arg[7..] else event.seqnum)
            && e.interfaceName == (if Gives(arg, "INTERFACE") then arg[10..] else event.interfaceName)
  {
    SplitOnceAt(arg, "ACTION");
    SplitOnceAt(arg, "DEVPATH");
    SplitOnceAt(arg, "DEVNAME");
    SplitOnceAt(arg, "SUBSYSTEM");
    SplitOnceAt(arg, "SEQNUM");
    SplitOnceAt(arg, "INTERFACE");
    hide Gives, SplitOnce;
    assert "DEVPATH"[3] != "DEVNAME"[3] && "SEQNUM"[1] != "ACTION"[1] && "SUBSYSTEM"[0] != "INTERFACE"[0];
  }

  /** Whatever parts follow the header, each field is the text behind the last one that begins with its key. */
  lemma {:induction false} FieldsAreLastGiven(args: seq<string>)
    ensures var e := SetFields(DEFAULT, args);
            && e.action == LastGiven(args, "ACTION") && e.devpath == LastGiven(args, "DEVPATH")
            && e.devname == LastGiven(args, "DEVNAME") && e.subsystem == LastGiven(args, "SUBSYSTEM")
            && e.seqnum == LastGiven(args, "SEQNUM") && e.interfaceName == LastGiven(args, "INTERFACE")
  {
    if args != [] {
      FieldsAreLastGiven(args[..|args| - 1]);
      OneGiven(SetFields(DEFAULT, args[..|args| - 1]), args[|args| - 1]);
      hide SetField;
    }
  }

  lemma FiveParts(h: string, a: string, b: string, c: string, d: string, sep: char)
    requires forall t | t in {h, a, b, c, d} :: sep !in t
    ensures Split(h + [sep] + (a + [sep] + (b + [sep] + (c + [sep] + d))), sep) == [h, a, b, c, d]
  {
    hide Split;
    SplitCons(h, a + [sep] + (b + [sep] + (c + [sep] + d)), sep);
    SplitCons(a, b + [sep] + (c + [sep] + d), sep);
    SplitCons(b, c + [sep] + d, sep);
    SplitCons(c, d, sep);
    SplitWhole(d, sep);
    assert [h] + ([a] + ([b] + ([c] + [d]))) == [h, a, b, c, d];
  }

  /** The message that announces a disk: the parts are separated by NUL characters. */
  lemma DiskIsAnnounced(header: string, path: string, name: string, subsystem: string)
    requires forall t | t in {header, path, name, subsystem} :: '\0' !in t
    ensures var text := header + "\0" + "ACTION=add" + "\0" + ("DEVPATH=" + path) + "\0"
                        + ("SUBSYSTEM=" + subsystem) + "\0" + ("DEVNAME=" + name);
            SetFields(DEFAULT, Split(text, '\0')[1..]) == Uevent("add", path, name, subsystem, "", "")
  {
    var a, b, c, d := "ACTION=add", "DEVPATH=" + path, "SUBSYSTEM=" + subsystem, "DEVNAME=" + name;
    FiveParts(header, a, b, c, d, '\0');
    FourFields(path, name, subsystem);
    hide Split, SetFields;
    assert "\0" == ['\0'];
    OneText(header, a, b, c, d, "\0");
    assert [header, a, b, c, d][1..] == [a, b, c, d];
  }

  lemma OneText(h: string, a: string, b: string, c: string, d: string, sep: string)
    ensures h + sep + a + sep + b + sep + c + sep + d == h + sep + (a + sep + (b + sep + (c + sep + d)))
  {
  }

  lemma PairSets(event: Uevent, key: string, value: string)
    requires '=' !in key
    ensures key == "ACTION" ==> SetField(event, key + "=" + value) == event.(action := value)
    ensures key == "DEVPATH" ==> SetField(event, key + "=" + value) == event.(devpath := value)
    ensures key == "SUBSYSTEM" ==> SetField(event, key + "=" + value) == event.(subsystem := value)
    ensures key == "DEVNAME" ==> SetField(event, key + "=" + value) == event.(devname := value)
  {
    SplitOncePair(key, value);
    assert "DEVPATH"[3] != "DEVNAME"[3] && "SUBSYSTEM"[0] != "INTERFACE"[0];
  }

  lemma SetFieldsSnoc(args: seq<string>, arg: string)
    ensures SetFields(DEFAULT, args + [arg]) == SetField(SetFields(DEFAULT, args), arg)
  {
    assert (args + [arg])[..|args|] == args;
  }

  lemma FourSet(a: string, b: string, c: string, d: string, e: Uevent, f: Uevent, g: Uevent)
    requires SetField(DEFAULT, a) == e && SetField(e, b) == f && SetField(f, c) == g
    ensures SetFields(DEFAULT, [a, b, c, d]) == SetField(g, d)
  {
    assert SetFields(DEFAULT, []) == DEFAULT;
    hide SetField, SetFields;
    SetFieldsSnoc([], a);
    SetFieldsSnoc([a], b);
    SetFieldsSnoc([a, b], c);
    SetFieldsSnoc([a, b, c], d);
    assert [] + [a] == [a] && [a] + [b] == [a, b] && [a, b] + [c] == [a, b, c] && [a, b, c] + [d] == [a, b, c, d];
  }

  lemma FourFields(path: string, name: string, subsystem: string)
    ensures SetFields(DEFAULT, ["ACTION=add", "DEVPATH=" + path, "SUBSYSTEM=" + subsystem, "DEVNAME=" + name])
         == Uevent("add", path, name, subsystem, "", "")
  {
    hide SetField, SetFields;
    var e := DEFAULT.(action := "add");
    var f := e.(devpath := path);
    var g := f.(subsystem := subsystem);
    PairSets(DEFAULT, "ACTION", "add");
    PairSets(e, "DEVPATH", path);
    PairSets(f, "SUBSYSTEM", subsystem);
    PairSets(g, "DEVNAME", name);
    assert "ACTION" + "=" + "add" == "ACTION=add" && "DEVPATH" + "=" + path == "DEVPATH=" + path;
    assert "SUBSYSTEM" + "=" + subsystem == "SUBSYSTEM=" + subsystem && "DEVNAME" + "=" + name == "DEVNAME=" + name;
    FourSet("ACTION=add", "DEVPATH=" + path, "SUBSYSTEM=" + subsystem, "DEVNAME=" + name, e, f, g);
  }
}
