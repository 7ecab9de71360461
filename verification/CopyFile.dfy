/** Receiving a file in chunks: each goes into a temporary file, which takes the target's place when complete. */
module CopyFile {
  import opened Basics
  import opened Text
  import opened Bytes

  const CONTAINER_BASE := "/run/agent"

  // Names

  function LastIndex(s: string, c: char): (i: int)
    ensures -1 <= i < |s|
    ensures i >= 0 ==> s[i] == c
    ensures forall k | i < k < |s| :: s[k] != c
  {
    if s == "" then -1 else if s[|s| - 1] == c then |s| - 1 else LastIndex(s[..|s| - 1], c)
  }

  /** Path::set_extension("tmp"): what follows the last dot of the file name is replaced, unless the name has no
      dot or only starts with one. */
  function TmpName(path: string): string {
    var slash := LastIndex(path, '/');
    var name := path[slash + 1..];
    var dot := LastIndex(name, '.');
    (if dot <= 0 then path else path[..slash + 1 + dot]) + ".tmp"
  }

  /** Path::starts_with compares whole components. */
  predicate Below(path: string, dir: string) {
    path == dir || StartsWith(path, dir + "/")
  }

  // One request

  datatype Request = Request(path: string, data: seq<byte>, offset: int, fileSize: int)

  datatype Result = Ok | NotFound | Forbidden | BadOffset

  type Files = map<string, seq<byte>>

  /** Positioned writing: a gap becomes zeros, later content stays, and writing nothing changes nothing, whatever
      the offset. */
  function Written(content: seq<byte>, offset: int, data: seq<byte>): seq<byte>
    requires offset >= 0 || data == []
  {
    if data == [] then content
    else
      var end := offset + |data|;
      (if offset <= |content| then content[..offset] else content + Zeros(offset - |content|))
      + data + (if end <= |content| then content[end..] else [])
  }

  /** The target a request names: canonical names are known only for files that exist. */
  function Target(names: map<string, string>, fs: Files, path: string): Option<string> {
    if path in names && names[path] in fs then Some(names[path]) else None
  }

  function Content(fs: Files, name: string): seq<byte> {
    if name in fs then fs[name] else []
  }

  /** Renaming a file onto itself changes nothing. */
  function Rename(fs: Files, from: string, to: string): Files
    requires from in fs
  {
    if from == to then fs else (fs - {from})[to := fs[from]]
  }

  function Handle(names: map<string, string>, fs: Files, req: Request): (Files, Result) {
    match Target(names, fs, req.path)
    case None => (fs, NotFound)
    case Some(target) =>
      if !Below(target, CONTAINER_BASE) then (fs, Forbidden)
      else
        var tmp := TmpName(target);
        var created := fs[tmp := Content(fs, tmp)];
        if req.offset < 0 && req.data != [] then (created, BadOffset)
        else
          var content := Written(created[tmp], req.offset, req.data);
          var written := created[tmp := content];
          (if |content| == req.fileSize then Rename(written, tmp, target) else written, Ok)
  }

  // Which requests are taken

  lemma SplitBelowBase(rest: string)
    ensures Split("/run/agent/" + rest, '/') == ["", "run", "agent"] + Split(rest, '/')
  {
    var inner := "agent" + ['/'] + rest;
    var outer := "run" + ['/'] + inner;
    SplitCons("agent", rest, '/');
    SplitCons("run", inner, '/');
    SplitCons("", outer, '/');
    assert "" + ['/'] + outer == "/run/agent/" + rest;
    assert [""] + (["run"] + (["agent"] + Split(rest, '/'))) == ["", "run", "agent"] + Split(rest, '/');
  }

  lemma JoinBelowBase(rest: seq<string>)
    ensures Join(["", "run", "agent"] + rest, '/')
         == if rest == [] then "/run/agent" else "/run/agent/" + Join(rest, '/')
  {
    var parts := ["", "run", "agent"] + rest;
    assert parts[1..] == ["run", "agent"] + rest && parts[1..][1..] == ["agent"] + rest && parts[3..] == rest;
    JoinCons(parts, '/');
    JoinCons(parts[1..], '/');
    if rest != [] {
      JoinCons(parts[1..][1..], '/');
      assert parts[1..][1..][1..] == rest;
      assert "" + ['/'] + ("run" + ['/'] + ("agent" + ['/'] + Join(rest, '/'))) == "/run/agent/" + Join(rest, '/');
    } else {
      assert "" + ['/'] + ("run" + ['/'] + "agent") == "/run/agent";
    }
  }

  lemma BelowBase(path: string)
    ensures Below(path, "/run/agent")
       <==> path == "/run/agent" || (|path| >= 11 && path == "/run/agent/" + path[11..])
  {
    if |path| >= 11 && path == "/run/agent/" + path[11..] {
      assert path[0..11] == "/run/agent/";
    }
    if StartsWith(path, "/run/agent" + "/") {
      assert path[..11] == "/run/agent/";
    }
  }

  /** The base is compared component by component. */
  lemma BelowExactly(parts: seq<string>)
    requires |parts| >= 1 && forall p | p in parts :: '/' !in p
    ensures Below(Join(parts, '/'), "/run/agent") <==> ["", "run", "agent"] <= parts
  {
    hide Below, Split, Join;
    var path := Join(parts, '/');
    SplitOfJoin(parts, '/');
    BelowBase(path);
    JoinBelowBase([]);
    if ["", "run", "agent"] <= parts {
      assert parts == ["", "run", "agent"] + parts[3..];
      JoinBelowBase(parts[3..]);
      assert parts[3..] != [] ==> path[11..] == Join(parts[3..], '/');
    }
    if path == "/run/agent" {
      assert ["", "run", "agent"] + [] == ["", "run", "agent"];
      SplitOfJoin(["", "run", "agent"], '/');
    } else if |path| >= 11 && path == "/run/agent/" + path[11..] {
      SplitBelowBase(path[11..]);
    }
  }

  /** A request is refused, and changes no file, exactly when the file it names lies elsewhere than under the
      directories "run" and "agent" of the root; one for no file is refused as well. */
  lemma OnlyBelowTheBase(names: map<string, string>, fs: Files, req: Request, parts: seq<string>)
    requires req.path in names && names[req.path] == Join(parts, '/')
    requires |parts| >= 1 && forall p | p in parts :: '/' !in p
    ensures names[req.path] !in fs ==> Handle(names, fs, req) == (fs, NotFound)
    ensures names[req.path] in fs ==>
              (Handle(names, fs, req).1 == Forbidden <==> !(["", "run", "agent"] <= parts))
    ensures names[req.path] in fs && !(["", "run", "agent"] <= parts) ==> Handle(names, fs, req) == (fs, Forbidden)
  {
    BelowExactly(parts);
    hide Below, Join, TmpName, Written;
  }

  /** A directory whose name only begins like the base is not below it. */
  lemma SiblingIsRefused(fs: Files, req: Request, name: string)
    requires '/' !in name && "/run/agentx/" + name in fs && req.path == "/run/agentx/" + name
    ensures Handle(map[req.path := req.path], fs, req) == (fs, Forbidden)
  {
    var parts := ["", "run", "agentx", name];
    assert Join(parts, '/') == "/run/agentx/" + name by {
      JoinCons(parts, '/');
      JoinCons(["run", "agentx", name], '/');
      JoinCons(["agentx", name], '/');
    }
    assert |parts[2]| == 6;
    OnlyBelowTheBase(map[req.path := req.path], fs, req, parts);
  }

  /** A negative offset is one no byte can be written at; the temporary file is there by then. */
  lemma NegativeOffset(names: map<string, string>, fs: Files, req: Request, parts: seq<string>)
    requires req.path in names && names[req.path] in fs && names[req.path] == Join(parts, '/')
    requires |parts| >= 1 && (forall p | p in parts :: '/' !in p) && ["", "run", "agent"] <= parts
    ensures Handle(names, fs, req).1 == BadOffset <==> req.offset < 0 && req.data != []
    ensures req.offset < 0 && req.data != [] ==>
              var tmp := TmpName(names[req.path]);
              Handle(names, fs, req).0 == if tmp in fs then fs else fs[tmp := []]
  {
    BelowExactly(parts);
    OpeningOnly(fs, TmpName(names[req.path]));
    hide Below, Join, TmpName, Written, Content, Rename;
  }

  lemma OpeningOnly(fs: Files, name: string)
    ensures fs[name := Content(fs, name)] == if name in fs then fs else fs[name := []]
  {
  }

  /** Positioned writing, byte by byte. */
  lemma WrittenAt(content: seq<byte>, offset: nat, data: seq<byte>, i: nat)
    requires data != [] && (i < |content| || i < offset + |data|)
    ensures var r := Written(content, offset, data);
            && |r| == Max(|content|, offset + |data|)
            && r[i] == if offset <= i < offset + |data| then data[i - offset]
                       else if i < |content| then content[i]
                       else 0
  {
  }

  class FileSystem {
    const names: map<string, string>  // path to canonical name
    var files: Files

    constructor (names: map<string, string>, files: Files)
      ensures this.names == names && this.files == files
    {
      this.names, this.files := names, files;
    }

    method WriteAllAt(name: string, data: seq<byte>, offset: int) returns (ok: bool)
      requires name in files
      modifies this
      ensures ok == (offset >= 0 || data == [])
      ensures files == if ok then old(files)[name := Written(old(files)[name], offset, data)] else old(files)
    {
      ok := offset >= 0 || data == [];
      if ok {
        files := files[name := Written(files[name], offset, data)];
      }
    }

    method DoCopyFile(req: Request) returns (r: Result)
      modifies this
      ensures (files, r) == Handle(names, old(files), req)
    {
      hide TmpName, Below, Written;
      if req.path !in names || names[req.path] !in files {
        return NotFound;
      }
      var path := names[req.path];
      if !Below(path, CONTAINER_BASE) {
        return Forbidden;
      }
      var tmpfile := TmpName(path);
      if tmpfile !in files {
        files := files[tmpfile := []];
      }
      assert files == old(files)[tmpfile := Content(old(files), tmpfile)];
      var ok := WriteAllAt(tmpfile, req.data, req.offset);
      if !ok {
        return BadOffset;
      }
      if |files[tmpfile]| != req.fileSize {
        return Ok;
      }
      files := Rename(files, tmpfile, path);
      return Ok;
    }
  }

  // A transfer

  /** The request that carries the i-th chunk. */
  function ChunkRequest(path: string, chunks: seq<seq<byte>>, i: nat): Request
    requires i < |chunks|
  {
    Request(path, chunks[i], |Flatten(chunks[..i])|, |Flatten(chunks)|)
  }

  function Transfer(path: string, chunks: seq<seq<byte>>): seq<Request> {
    seq(|chunks|, i requires 0 <= i < |chunks| => ChunkRequest(path, chunks, i))
  }

  function Run(names: map<string, string>, fs: Files, reqs: seq<Request>): Files {
    if reqs == [] then fs else Handle(names, Run(names, fs, reqs[..|reqs| - 1]), reqs[|reqs| - 1]).0
  }

  /** The target exists under the container base and is not its own temporary name. */
  ghost predicate Ready(names: map<string, string>, fs: Files, path: string, target: string) {
    Target(names, fs, path) == Some(target) && Below(target, CONTAINER_BASE) && TmpName(target) != target
  }

  function Max(a: nat, b: nat): nat {
    if a < b then b else a
  }

  /** The new content over what a left-over temporary file held, which may stick out. */
  function Over(stale: seq<byte>, content: seq<byte>): (r: seq<byte>)
    ensures |r| == Max(|stale|, |content|)
  {
    content + if |content| <= |stale| then stale[|content|..] else []
  }

  lemma {:induction false} PrefixShorter(chunks: seq<seq<byte>>, i: nat)
    requires i < |chunks|
    ensures Flatten(chunks[..i + 1]) == Flatten(chunks[..i]) + chunks[i]
    ensures |Flatten(chunks[..i + 1])| <= |Flatten(chunks)|
    decreases |chunks| - i
  {
    assert chunks[..i + 1] == chunks[..i] + [chunks[i]];
    FlattenSnoc(chunks[..i], chunks[i]);
    if i + 1 < |chunks| {
      PrefixShorter(chunks, i + 1);
    } else {
      assert chunks[..i + 1] == chunks;
    }
  }

  /** Writing the next chunk at the end of what was sent before. */
  lemma WriteExtends(stale: seq<byte>, sent: seq<byte>, chunk: seq<byte>)
    ensures Written(Over(stale, sent), |sent|, chunk) == Over(stale, sent + chunk)
  {
  }

  function After(names: map<string, string>, fs: Files, path: string, chunks: seq<seq<byte>>, k: nat): Files
    requires k <= |chunks|
  {
    Run(names, fs, Transfer(path, chunks)[..k])
  }

  lemma AfterStep(names: map<string, string>, fs: Files, path: string, chunks: seq<seq<byte>>, k: nat)
    requires k < |chunks|
    ensures After(names, fs, path, chunks, k + 1)
         == Handle(names, After(names, fs, path, chunks, k), ChunkRequest(path, chunks, k)).0
  {
    var reqs := Transfer(path, chunks)[..k + 1];
    assert reqs[..k] == Transfer(path, chunks)[..k];
  }

  /** What one request does to the two files once the target is known. */
  function Store(fs: Files, target: string, tmp: string, content: seq<byte>, total: int): Files {
    if |content| == total then (fs - {tmp})[target := content] else fs[tmp := content]
  }

  lemma HandleStores(names: map<string, string>, fs: Files, target: string, req: Request)
    requires Ready(names, fs, req.path, target) && (req.offset >= 0 || req.data == [])
    ensures var tmp := TmpName(target);
            Handle(names, fs, req).0
              == Store(fs, target, tmp, Written(Content(fs, tmp), req.offset, req.data), req.fileSize)
  {
    var tmp := TmpName(target);
    var content := Written(Content(fs, tmp), req.offset, req.data);
    assert fs[tmp := Content(fs, tmp)][tmp := content] == fs[tmp := content];
    assert fs[tmp := content] - {tmp} == fs - {tmp};
  }

  lemma NextChunk(names: map<string, string>, fs: Files, path: string, target: string, stale: seq<byte>,
                  chunks: seq<seq<byte>>, k: nat)
    requires k < |chunks| && Ready(names, After(names, fs, path, chunks, k), path, target)
    requires Content(After(names, fs, path, chunks, k), TmpName(target)) == Over(stale, Flatten(chunks[..k]))
    ensures var content := Over(stale, Flatten(chunks[..k + 1]));
            After(names, fs, path, chunks, k + 1)
              == Store(After(names, fs, path, chunks, k), target, TmpName(target), content, |Flatten(chunks)|)
  {
    AfterStep(names, fs, path, chunks, k);
    HandleStores(names, After(names, fs, path, chunks, k), target, ChunkRequest(path, chunks, k));
    PrefixShorter(chunks, k);
    WriteExtends(stale, Flatten(chunks[..k]), chunks[k]);
  }

  /** The size the temporary file has once k chunks are in it. */
  function TmpSize(stale: nat, chunks: seq<seq<byte>>, k: nat): nat
    requires k <= |chunks|
  {
    Max(stale, |Flatten(chunks[..k])|)
  }

  /** While no chunk has brought the temporary file to the announced size, only that file has changed. */
  lemma {:induction false} Collecting(names: map<string, string>, fs: Files, path: string, target: string,
                                      chunks: seq<seq<byte>>, k: nat)
    requires Ready(names, fs, path, target) && k <= |chunks|
    requires forall i | 0 < i <= k :: TmpSize(|Content(fs, TmpName(target))|, chunks, i) != |Flatten(chunks)|
    ensures var was := Content(fs, TmpName(target));
            After(names, fs, path, chunks, k)
              == if k == 0 then fs else fs[TmpName(target) := Over(was, Flatten(chunks[..k]))]
  {
    if k > 0 {
      Collecting(names, fs, path, target, chunks, k - 1);
      NextChunk(names, fs, path, target, Content(fs, TmpName(target)), chunks, k - 1);
      assert TmpSize(|Content(fs, TmpName(target))|, chunks, k) != |Flatten(chunks)|;
    }
  }

  /** The first chunk that brings it to that size puts it in the target's place. */
  lemma Completing(names: map<string, string>, fs: Files, path: string, target: string,
                   chunks: seq<seq<byte>>, k: nat)
    requires Ready(names, fs, path, target) && 0 < k <= |chunks|
    requires forall i | 0 < i < k :: TmpSize(|Content(fs, TmpName(target))|, chunks, i) != |Flatten(chunks)|
    requires TmpSize(|Content(fs, TmpName(target))|, chunks, k) == |Flatten(chunks)|
    ensures var was := Content(fs, TmpName(target));
            After(names, fs, path, chunks, k) == (fs - {TmpName(target)})[target := Over(was, Flatten(chunks[..k]))]
  {
    var tmp := TmpName(target);
    Collecting(names, fs, path, target, chunks, k - 1);
    NextChunk(names, fs, path, target, Content(fs, tmp), chunks, k - 1);
    SetOnly(fs, tmp, Content(After(names, fs, path, chunks, k - 1), tmp));
  }

  lemma SetOnly(fs: Files, name: string, content: seq<byte>)
    ensures fs[name := content] - {name} == fs - {name}
  {
  }

  /** After k chunks the data waits in the temporary file and nothing else has changed. */
  ghost predicate Waiting(names: map<string, string>, fs: Files, path: string, target: string,
                          chunks: seq<seq<byte>>, k: nat)
    requires k <= |chunks|
  {
    var now, tmp := After(names, fs, path, chunks, k), TmpName(target);
    tmp in now && now - {tmp} == fs - {tmp}
  }

  /** What a transfer is for: up to the last chunk the target keeps its content; the last chunk makes the target
      the whole file, leaving no temporary and no other trace. */
  ghost predicate Atomic(names: map<string, string>, fs: Files, path: string, target: string,
                         chunks: seq<seq<byte>>)
  {
    && (forall k | 0 < k < |chunks| :: Waiting(names, fs, path, target, chunks, k))
    && After(names, fs, path, chunks, |chunks|) == (fs - {TmpName(target)})[target := Flatten(chunks)]
  }

  /** The guard: a left-over temporary must not be longer than the file, and unless one chunk carries everything
      it must be shorter and the last chunk must not be empty. */
  predicate Completes(stale: nat, chunks: seq<seq<byte>>) {
    |chunks| > 0
    && stale <= |Flatten(chunks)|
    && (|chunks| == 1 || (stale < |Flatten(chunks)| && chunks[|chunks| - 1] != []))
  }

  lemma {:induction false} PrefixesGrow(chunks: seq<seq<byte>>, i: nat, j: nat)
    requires i <= j <= |chunks|
    ensures |Flatten(chunks[..i])| <= |Flatten(chunks[..j])|
    decreases j - i
  {
    if i < j {
      PrefixShorter(chunks, j - 1);
      PrefixesGrow(chunks, i, j - 1);
    }
  }

  /** With the guard, the announced size is not reached early. */
  lemma NotEarly(stale: nat, chunks: seq<seq<byte>>, i: nat)
    requires Completes(stale, chunks) && 0 < i < |chunks|
    ensures TmpSize(stale, chunks, i) < |Flatten(chunks)|
  {
    var n := |chunks|;
    assert chunks[..n] == chunks;
    PrefixShorter(chunks, n - 1);
    PrefixesGrow(chunks, i, n - 1);
  }

  lemma TransferIsAtomic(names: map<string, string>, fs: Files, path: string, target: string,
                         chunks: seq<seq<byte>>)
    requires Ready(names, fs, path, target)
    requires Completes(|Content(fs, TmpName(target))|, chunks)
    ensures Atomic(names, fs, path, target, chunks)
  {
    var n, tmp := |chunks|, TmpName(target);
    var stale := Content(fs, tmp);
    assert chunks[..n] == chunks;
    forall i | 0 < i < n ensures TmpSize(|stale|, chunks, i) < |Flatten(chunks)| {
      NotEarly(|stale|, chunks, i);
    }
    forall k | 0 < k < n ensures Waiting(names, fs, path, target, chunks, k) {
      Collecting(names, fs, path, target, chunks, k);
      SetOnly(fs, tmp, Over(stale, Flatten(chunks[..k])));
    }
    Completing(names, fs, path, target, chunks, n);
    assert Over(stale, Flatten(chunks)) == Flatten(chunks);
  }

  /** The guard is exact. */
  lemma TransferIsAtomicExactly(names: map<string, string>, fs: Files, path: string, target: string,
                                chunks: seq<seq<byte>>)
    requires Ready(names, fs, path, target) && |chunks| > 0
    ensures Atomic(names, fs, path, target, chunks) <==> Completes(|Content(fs, TmpName(target))|, chunks)
  {
    var n, tmp := |chunks|, TmpName(target);
    var stale := |Content(fs, tmp)|;
    assert chunks[..n] == chunks;
    if Completes(stale, chunks) {
      TransferIsAtomic(names, fs, path, target, chunks);
    } else if stale > |Flatten(chunks)| {
      NeverCompletes(names, fs, path, target, chunks);
    } else {
      // The size is reached before the last chunk.
      PrefixShorter(chunks, n - 1);
      assert TmpSize(stale, chunks, n - 1) == |Flatten(chunks)|;
      CompletesEarly(names, fs, path, target, chunks, n - 1);
    }
  }

  lemma NeverCompletes(names: map<string, string>, fs: Files, path: string, target: string,
                       chunks: seq<seq<byte>>)
    requires Ready(names, fs, path, target) && |chunks| > 0
    requires |Content(fs, TmpName(target))| > |Flatten(chunks)|
    ensures !Atomic(names, fs, path, target, chunks)
  {
    assert chunks[..|chunks|] == chunks;
    Collecting(names, fs, path, target, chunks, |chunks|);
    assert TmpName(target) in After(names, fs, path, chunks, |chunks|);
  }

  lemma {:induction false} CompletesEarly(names: map<string, string>, fs: Files, path: string, target: string,
                                          chunks: seq<seq<byte>>, k: nat)
    requires Ready(names, fs, path, target) && 0 < k < |chunks|
    requires TmpSize(|Content(fs, TmpName(target))|, chunks, k) == |Flatten(chunks)|
    ensures !Atomic(names, fs, path, target, chunks)
  {
    var stale := |Content(fs, TmpName(target))|;
    if i: nat :| 0 < i < k && TmpSize(stale, chunks, i) == |Flatten(chunks)| {
      CompletesEarly(names, fs, path, target, chunks, i);
    } else {
      Completing(names, fs, path, target, chunks, k);
      assert !Waiting(names, fs, path, target, chunks, k);
    }
  }

  // A target that is its own temporary, as its name ends in ".tmp" already

  ghost predicate ReadyInPlace(names: map<string, string>, fs: Files, path: string, target: string) {
    Target(names, fs, path) == Some(target) && Below(target, CONTAINER_BASE) && TmpName(target) == target
  }

  /** Every chunk shows in the target at once. */
  lemma {:induction false} WritingInPlace(names: map<string, string>, fs: Files, path: string, target: string,
                                          chunks: seq<seq<byte>>, k: nat)
    requires ReadyInPlace(names, fs, path, target) && k <= |chunks|
    ensures After(names, fs, path, chunks, k) == fs[target := Over(fs[target], Flatten(chunks[..k]))]
  {
    if k == 0 {
      assert Transfer(path, chunks)[..0] == [] && Over(fs[target], Flatten(chunks[..0])) == fs[target];
    } else {
      WritingInPlace(names, fs, path, target, chunks, k - 1);
      AfterStep(names, fs, path, chunks, k - 1);
      HandledInPlace(names, After(names, fs, path, chunks, k - 1), target, ChunkRequest(path, chunks, k - 1));
      PrefixShorter(chunks, k - 1);
      WriteExtends(fs[target], Flatten(chunks[..k - 1]), chunks[k - 1]);
    }
  }

  lemma HandledInPlace(names: map<string, string>, fs: Files, target: string, req: Request)
    requires ReadyInPlace(names, fs, req.path, target) && (req.offset >= 0 || req.data == [])
    ensures Handle(names, fs, req).0 == fs[target := Written(fs[target], req.offset, req.data)]
  {
    assert fs[target := fs[target]] == fs;
  }

  /** The target keeps its content until the last chunk and then is the whole file. */
  ghost predicate AtomicInPlace(names: map<string, string>, fs: Files, path: string, target: string,
                                chunks: seq<seq<byte>>)
  {
    && (forall k | 0 < k < |chunks| :: After(names, fs, path, chunks, k) == fs)
    && After(names, fs, path, chunks, |chunks|) == fs[target := Flatten(chunks)]
  }

  lemma {:induction false} PrefixesNest(chunks: seq<seq<byte>>, i: nat, j: nat)
    requires i <= j <= |chunks|
    ensures Flatten(chunks[..i]) <= Flatten(chunks[..j])
    decreases j - i
  {
    if i < j {
      PrefixShorter(chunks, j - 1);
      PrefixesNest(chunks, i, j - 1);
    }
  }

  lemma OverIsSame(stale: seq<byte>, sent: seq<byte>)
    ensures Over(stale, sent) == stale <==> sent <= stale
    ensures Over(stale, sent) == sent <==> |stale| <= |sent|
  {
    if |sent| <= |stale| {
      assert stale == stale[..|sent|] + stale[|sent|..];
      assert Over(stale, sent)[..|sent|] == sent;
    }
  }

  lemma InPlaceStep(names: map<string, string>, fs: Files, path: string, target: string, chunks: seq<seq<byte>>,
                    k: nat)
    requires ReadyInPlace(names, fs, path, target) && k <= |chunks|
    ensures After(names, fs, path, chunks, k) == fs <==> Flatten(chunks[..k]) <= fs[target]
    ensures After(names, fs, path, chunks, k) == fs[target := Flatten(chunks[..k])]
       <==> |fs[target]| <= |Flatten(chunks[..k])|
  {
    WritingInPlace(names, fs, path, target, chunks, k);
    var stale, sent := fs[target], Flatten(chunks[..k]);
    OverIsSame(stale, sent);
    hide After, Over, Flatten;
    assert fs[target := stale] == fs;
    assert fs[target := Over(stale, sent)][target] == Over(stale, sent);
  }

  /** Such a target is replaced as a whole exactly when the file is no shorter than what was there and everything
      before the last chunk repeats what was there. */
  lemma InPlaceIsAtomicExactly(names: map<string, string>, fs: Files, path: string, target: string,
                               chunks: seq<seq<byte>>)
    requires ReadyInPlace(names, fs, path, target) && |chunks| > 0
    ensures AtomicInPlace(names, fs, path, target, chunks)
       <==> |fs[target]| <= |Flatten(chunks)| && Flatten(chunks[..|chunks| - 1]) <= fs[target]
  {
    var n := |chunks|;
    assert chunks[..n] == chunks;
    InPlaceStep(names, fs, path, target, chunks, n);
    InPlaceStep(names, fs, path, target, chunks, n - 1);
    assert n == 1 ==> chunks[..n - 1] == [];
    assert Flatten([]) == [];
    hide After, Over, Flatten, ReadyInPlace;
    forall k | 0 < k < n
      ensures Flatten(chunks[..n - 1]) <= fs[target] ==> After(names, fs, path, chunks, k) == fs
    {
      InPlaceStep(names, fs, path, target, chunks, k);
      PrefixesNest(chunks, k, n - 1);
    }
  }

  // Several transfers at once

  /** The two files a request may touch. */
  function Footprint(names: map<string, string>, req: Request): set<string> {
    if req.path in names then {names[req.path], TmpName(names[req.path])} else {}
  }

  function Restrict(fs: Files, part: set<string>): Files {
    map name | name in fs && name in part :: fs[name]
  }

  /** Nothing outside its footprint changes. */
  lemma HandleTouchesItsOwn(names: map<string, string>, fs: Files, req: Request, part: set<string>)
    requires part !! Footprint(names, req)
    ensures Restrict(Handle(names, fs, req).0, part) == Restrict(fs, part)
  {
    hide TmpName, Below, Written;
    if req.path in names {
      assert names[req.path] !in part && TmpName(names[req.path]) !in part;
    }
  }

  /** Nothing outside its footprint matters. */
  lemma HandleSeesItsOwn(names: map<string, string>, fs: Files, other: Files, req: Request, part: set<string>)
    requires part == Footprint(names, req) && Restrict(fs, part) == Restrict(other, part)
    ensures Restrict(Handle(names, fs, req).0, part) == Restrict(Handle(names, other, req).0, part)
    ensures Handle(names, fs, req).1 == Handle(names, other, req).1
  {
    hide TmpName, Below, Written;
    if req.path in names {
      Agree(fs, other, part, names[req.path]);
      Agree(fs, other, part, TmpName(names[req.path]));
    }
  }

  lemma Agree(fs: Files, other: Files, part: set<string>, name: string)
    requires Restrict(fs, part) == Restrict(other, part) && name in part
    ensures name in fs <==> name in other
    ensures Content(fs, name) == Content(other, name)
  {
    assert name in Restrict(fs, part) <==> name in fs;
    assert name in Restrict(other, part) <==> name in other;
    assert name in fs ==> Restrict(fs, part)[name] == fs[name];
    assert name in other ==> Restrict(other, part)[name] == other[name];
  }

  /** The requests of a schedule that name this path. */
  function Only(reqs: seq<Request>, path: string): seq<Request> {
    if reqs == [] then []
    else
      var r := reqs[|reqs| - 1];
      Only(reqs[..|reqs| - 1], path) + if r.path == path then [r] else []
  }

  /** However transfers are interleaved, each of two files gets what its own requests alone would have made of
      it, as long as no other request touches either. */
  lemma {:induction false} TransfersDoNotInterfere(names: map<string, string>, fs: Files, schedule: seq<Request>,
                                                   path: string, mine: set<string>)
    requires path in names && mine == {names[path], TmpName(names[path])}
    requires forall r | r in schedule :: r.path == path || Footprint(names, r) !! mine
    ensures Restrict(Run(names, fs, schedule), mine) == Restrict(Run(names, fs, Only(schedule, path)), mine)
  {
    if schedule != [] {
      var rest, r := schedule[..|schedule| - 1], schedule[|schedule| - 1];
      TransfersDoNotInterfere(names, fs, rest, path, mine);
      var own := Only(rest, path);
      if r.path == path {
        assert (own + [r])[..|own|] == own;
        HandleSeesItsOwn(names, Run(names, fs, rest), Run(names, fs, own), r, mine);
      } else {
        assert own + [] == own;
        HandleTouchesItsOwn(names, Run(names, fs, rest), r, mine);
      }
    }
  }

  lemma {:induction false} OnlyOfPrefix(reqs: seq<Request>, path: string, j: nat)
    requires j <= |reqs|
    ensures Only(reqs[..j], path) <= Only(reqs, path)
    decreases |reqs|
  {
    if j < |reqs| {
      OnlyOfPrefix(reqs[..|reqs| - 1], path, j);
      assert reqs[..|reqs| - 1][..j] == reqs[..j];
    } else {
      assert reqs[..j] == reqs;
    }
  }

  /** The requests of the schedule up to j that are this transfer's own. */
  function Own(schedule: seq<Request>, path: string, j: nat): nat
    requires j <= |schedule|
  {
    |Only(schedule[..j], path)|
  }

  /** What a schedule does for one transfer in it: the target keeps its content until the transfer's last request,
      and ends as the whole file with no temporary left. */
  ghost predicate Delivers(names: map<string, string>, fs: Files, schedule: seq<Request>, path: string,
                           chunks: seq<seq<byte>>)
    requires path in names
  {
    && (forall j | 0 <= j <= |schedule| && Own(schedule, path, j) < |chunks| ::
          Content(Run(names, fs, schedule[..j]), names[path]) == Content(fs, names[path]))
    && Content(Run(names, fs, schedule), names[path]) == Flatten(chunks)
    && TmpName(names[path]) !in Run(names, fs, schedule)
  }

  /** Alone, before its last request a transfer leaves its target as it was. */
  lemma UnchangedSoFar(names: map<string, string>, fs: Files, path: string, target: string,
                       chunks: seq<seq<byte>>, k: nat)
    requires Ready(names, fs, path, target) && k < |chunks|
    requires Atomic(names, fs, path, target, chunks)
    ensures Content(After(names, fs, path, chunks, k), target) == Content(fs, target)
  {
    if k > 0 {
      assert Waiting(names, fs, path, target, chunks, k);
      var now := After(names, fs, path, chunks, k);
      assert target in fs - {TmpName(target)};
      assert (now - {TmpName(target)})[target] == (fs - {TmpName(target)})[target];
    }
  }

  /** After j requests of a schedule, this transfer's two files are as after its own requests among them. */
  lemma PartOfSchedule(names: map<string, string>, fs: Files, schedule: seq<Request>, path: string,
                       chunks: seq<seq<byte>>, j: nat, mine: set<string>)
    requires path in names && mine == {names[path], TmpName(names[path])} && j <= |schedule|
    requires Only(schedule, path) == Transfer(path, chunks)
    requires forall r | r in schedule :: r.path == path || Footprint(names, r) !! mine
    ensures var k := Own(schedule, path, j);
            k <= |chunks| && Restrict(Run(names, fs, schedule[..j]), mine)
                          == Restrict(After(names, fs, path, chunks, k), mine)
  {
    hide Run, Restrict, Only;
    OnlyOfPrefix(schedule, path, j);
    TransfersDoNotInterfere(names, fs, schedule[..j], path, mine);
    assert |Transfer(path, chunks)| == |chunks|;
    assert Only(schedule[..j], path) == Transfer(path, chunks)[..Own(schedule, path, j)];
  }

  /** So a transfer among others still delivers its file. */
  lemma InterleavedTransferDelivers(names: map<string, string>, fs: Files, schedule: seq<Request>, path: string,
                                    chunks: seq<seq<byte>>)
    requires path in names && Ready(names, fs, path, names[path])
    requires Completes(|Content(fs, TmpName(names[path]))|, chunks)
    requires Only(schedule, path) == Transfer(path, chunks)
    requires forall r | r in schedule ::
               r.path == path || Footprint(names, r) !! {names[path], TmpName(names[path])}
    ensures Delivers(names, fs, schedule, path, chunks)
  {
    hide Run, Restrict, Completes;
    var target, tmp := names[path], TmpName(names[path]);
    var mine := {target, tmp};
    TransferIsAtomic(names, fs, path, target, chunks);
    forall j | 0 <= j <= |schedule| && Own(schedule, path, j) < |chunks|
      ensures Content(Run(names, fs, schedule[..j]), target) == Content(fs, target)
    {
      PartOfSchedule(names, fs, schedule, path, chunks, j, mine);
      var k := Own(schedule, path, j);
      UnchangedSoFar(names, fs, path, target, chunks, k);
      Agree(Run(names, fs, schedule[..j]), After(names, fs, path, chunks, k), mine, target);
    }
    PartOfSchedule(names, fs, schedule, path, chunks, |schedule|, mine);
    assert schedule[..|schedule|] == schedule;
    var alone := After(names, fs, path, chunks, |chunks|);
    Agree(Run(names, fs, schedule), alone, mine, target);
    Agree(Run(names, fs, schedule), alone, mine, tmp);
  }

  // When temporary names coincide

  lemma LastIndexIs(s: string, c: char, i: nat)
    requires i < |s| && s[i] == c && forall k | i < k < |s| :: s[k] != c
    ensures LastIndex(s, c) == i
  {
  }

  /** Two files of one directory whose names differ only in the extension share a temporary name; the one that
      already ends in ".tmp" is its own. */
  lemma SiblingsShareTmp(dir: string, stem: string, extension: string)
    requires stem != "" && '/' !in stem && '/' !in extension && '.' !in extension
    ensures TmpName(dir + "/" + stem + "." + extension) == dir + "/" + stem + ".tmp"
  {
    var path := dir + "/" + stem + "." + extension;
    LastIndexIs(path, '/', |dir|);
    var name := path[|dir| + 1..];
    assert name == stem + "." + extension;
    LastIndexIs(name, '.', |stem|);
    assert path[..|dir| + 1 + |stem|] == dir + "/" + stem;
  }

  /** A name without a dot, or whose one dot is its first character, gets the extension at its end. */
  lemma PlainNames(dir: string, name: string)
    requires '/' !in name && '.' !in name
    ensures TmpName(dir + "/" + name) == dir + "/" + name + ".tmp"
    ensures TmpName(dir + "/." + name) == dir + "/." + name + ".tmp"
  {
    var path, hidden := dir + "/" + name, dir + "/." + name;
    LastIndexIs(path, '/', |dir|);
    assert path[|dir| + 1..] == name;
    LastIndexIs(hidden, '/', |dir|);
    assert hidden[|dir| + 1..] == "." + name;
    LastIndexIs("." + name, '.', 0);
  }

  lemma RunSnoc(names: map<string, string>, fs: Files, reqs: seq<Request>, r: Request)
    ensures Run(names, fs, reqs + [r]) == Handle(names, Run(names, fs, reqs), r).0
  {
    assert (reqs + [r])[..|reqs|] == reqs;
  }

  lemma RunThree(names: map<string, string>, fs: Files, x: Request, y: Request, z: Request)
    ensures Run(names, fs, [x, y, z]) == Handle(names, Handle(names, Handle(names, fs, x).0, y).0, z).0
  {
    RunSnoc(names, fs, [], x);
    RunSnoc(names, fs, [x], y);
    RunSnoc(names, fs, [x, y], z);
    assert [] + [x] == [x] && [x] + [y] == [x, y] && [x, y] + [z] == [x, y, z];
  }

  /** A first chunk that covers what was left in the temporary file. */
  lemma FirstOfTwo(names: map<string, string>, fs: Files, x: Request, target: string)
    requires Ready(names, fs, x.path, target) && |Content(fs, TmpName(target))| < |x.data| < x.fileSize
    requires x.offset == 0
    ensures Handle(names, fs, x).0 == fs[TmpName(target) := x.data]
  {
    HandleStores(names, fs, target, x);
    assert Written(Content(fs, TmpName(target)), 0, x.data) == x.data;
  }

  /** Another file's only chunk on top of a shorter first chunk that uses the same temporary. */
  lemma OtherFileTakesTmp(names: map<string, string>, fs: Files, first: seq<byte>, y: Request, other: string)
    requires Ready(names, fs, y.path, other) && |first| < |y.data| == y.fileSize && y.offset == 0
    ensures Handle(names, fs[TmpName(other) := first], y).0 == (fs - {TmpName(other)})[other := y.data]
  {
    var tmp := TmpName(other);
    HandleStores(names, fs[tmp := first], other, y);
    assert Written(first, 0, y.data) == y.data;
    SetOnly(fs, tmp, first);
  }

  /** The last chunk then meets an empty temporary, and what was sent before it is zeros. */
  lemma LastOfTwo(names: map<string, string>, fs: Files, z: Request, target: string)
    requires Ready(names, fs, z.path, target) && TmpName(target) !in fs
    requires z.offset > 0 && z.data != [] && z.fileSize == z.offset + |z.data|
    ensures Content(Handle(names, fs, z).0, target) == Zeros(z.offset) + z.data
  {
    HandleStores(names, fs, target, z);
    assert Written([], z.offset, z.data) == Zeros(z.offset) + z.data;
  }

  /** So distinct targets are not enough: with a shared temporary name, a file sent in two chunks with another
      file's single chunk in between arrives with its first chunk lost. */
  lemma SharedTmpLosesData(names: map<string, string>, fs: Files, p: string, q: string, first: seq<byte>,
                           other: seq<byte>, last: byte)
    requires p in names && q in names && names[p] != names[q] && TmpName(names[p]) == TmpName(names[q])
    requires Ready(names, fs, p, names[p]) && Ready(names, fs, q, names[q])
    requires |Content(fs, TmpName(names[p]))| < |first| && |other| == |first| + 1
    ensures var n := |first|;
            var x, y, z := Request(p, first, 0, n + 1), Request(q, other, 0, n + 1), Request(p, [last], n, n + 1);
            Content(Run(names, fs, [x, y, z]), names[p]) == Zeros(n) + [last]
  {
    hide Handle;
    var n, tmp := |first|, TmpName(names[p]);
    var x, y, z := Request(p, first, 0, n + 1), Request(q, other, 0, n + 1), Request(p, [last], n, n + 1);
    RunThree(names, fs, x, y, z);
    FirstOfTwo(names, fs, x, names[p]);
    OtherFileTakesTmp(names, fs, first, y, names[q]);
    LastOfTwo(names, (fs - {tmp})[names[q] := other], z, names[p]);
  }

  // When two files can be sent at the same time

  /** A schedule of two complete transfers, interleaved in whatever way. */
  ghost predicate TwoTransfers(names: map<string, string>, fs: Files, schedule: seq<Request>, p: string,
                               cs: seq<seq<byte>>, q: string, ds: seq<seq<byte>>)
    requires p in names && q in names
  {
    && Completes(|Content(fs, TmpName(names[p]))|, cs) && Completes(|Content(fs, TmpName(names[q]))|, ds)
    && Only(schedule, p) == Transfer(p, cs) && Only(schedule, q) == Transfer(q, ds)
    && forall r | r in schedule :: r.path == p || r.path == q
  }

  ghost predicate AlwaysBothDelivered(names: map<string, string>, fs: Files, p: string, q: string)
    requires p in names && q in names
  {
    forall schedule, cs, ds | TwoTransfers(names, fs, schedule, p, cs, q, ds) ::
      Delivers(names, fs, schedule, p, cs) && Delivers(names, fs, schedule, q, ds)
  }

  lemma DisjointSuffices(names: map<string, string>, fs: Files, p: string, q: string)
    requires p in names && q in names && p != q
    requires Ready(names, fs, p, names[p]) && Ready(names, fs, q, names[q])
    requires {names[p], TmpName(names[p])} !! {names[q], TmpName(names[q])}
    ensures AlwaysBothDelivered(names, fs, p, q)
  {
    forall schedule, cs, ds | TwoTransfers(names, fs, schedule, p, cs, q, ds)
      ensures Delivers(names, fs, schedule, p, cs) && Delivers(names, fs, schedule, q, ds)
    {
      InterleavedTransferDelivers(names, fs, schedule, p, cs);
      InterleavedTransferDelivers(names, fs, schedule, q, ds);
    }
  }

  function Repeat(b: byte, n: nat): (r: seq<byte>)
    ensures |r| == n && forall i | 0 <= i < n :: r[i] == b
  {
    seq(n, _ => b)
  }

  lemma OneChunk(path: string, data: seq<byte>)
    ensures Flatten([data]) == data
    ensures Transfer(path, [data]) == [Request(path, data, 0, |data|)]
    ensures data != [] ==> forall stale: nat | stale < |data| :: Completes(stale, [data])
  {
    assert data + [] == data && [data][..0] == [];
  }

  lemma TwoChunks(path: string, first: seq<byte>, last: seq<byte>)
    requires last != []
    ensures Flatten([first, last]) == first + last
    ensures var n := |first| + |last|;
            Transfer(path, [first, last]) == [Request(path, first, 0, n), Request(path, last, |first|, n)]
    ensures forall stale: nat | stale < |first| + |last| :: Completes(stale, [first, last])
  {
    var cs := [first, last];
    assert cs[..0] == [] && cs[..1] == [first];
    OneChunk(path, first);
    OneChunk(path, last);
    assert cs[1..] == [last];
    assert Flatten(cs) == first + last;
    assert ChunkRequest(path, cs, 0) == Request(path, first, 0, |first| + |last|);
    assert ChunkRequest(path, cs, 1) == Request(path, last, |first|, |first| + |last|);
  }

  lemma OnlySnoc(reqs: seq<Request>, r: Request, path: string)
    ensures Only(reqs + [r], path) == Only(reqs, path) + if r.path == path then [r] else []
  {
    assert (reqs + [r])[..|reqs|] == reqs;
  }

  /** Two transfers of one chunk each, one after the other. */
  lemma InTurn(names: map<string, string>, fs: Files, p: string, q: string, a: seq<byte>, b: seq<byte>)
    returns (schedule: seq<Request>)
    requires p in names && q in names && p != q
    requires |Content(fs, TmpName(names[p]))| < |a| && |Content(fs, TmpName(names[q]))| < |b|
    ensures TwoTransfers(names, fs, schedule, p, [a], q, [b])
  {
    OneChunk(p, a);
    OneChunk(q, b);
    var x, y := Request(p, a, 0, |a|), Request(q, b, 0, |b|);
    schedule := [x, y];
    assert [] + [x] == [x] && [x] + [y] == [x, y];
    OnlySnoc([], x, p);
    OnlySnoc([x], y, p);
    OnlySnoc([], x, q);
    OnlySnoc([x], y, q);
  }

  /** Where a target is the other's target or temporary, delivering both contradicts itself. */
  lemma TargetsClash(names: map<string, string>, fs: Files, p: string, q: string)
    requires p in names && q in names && p != q
    requires names[p] == names[q] || names[q] == TmpName(names[p]) || names[p] == TmpName(names[q])
    ensures !AlwaysBothDelivered(names, fs, p, q)
  {
    var n := |Content(fs, TmpName(names[p]))| + |Content(fs, TmpName(names[q]))| + 1;
    var a, b := Repeat(1, n), Repeat(2, n);
    var schedule := InTurn(names, fs, p, q, a, b);
    OneChunk(p, a);
    OneChunk(q, b);
    assert a[0] != b[0];
    hide Run;
    var end := Run(names, fs, schedule);
    assert Delivers(names, fs, schedule, p, [a]) ==> Content(end, names[p]) == a && TmpName(names[p]) !in end;
    assert Delivers(names, fs, schedule, q, [b]) ==> Content(end, names[q]) == b && TmpName(names[q]) !in end;
  }

  /** Where only the temporaries coincide, one file's chunk can come between two of the other's. */
  lemma TmpsClash(names: map<string, string>, fs: Files, p: string, q: string)
    requires p in names && q in names && p != q && names[p] != names[q]
    requires Ready(names, fs, p, names[p]) && Ready(names, fs, q, names[q])
    requires TmpName(names[p]) == TmpName(names[q])
    ensures !AlwaysBothDelivered(names, fs, p, q)
  {
    hide Handle, Run, Flatten, Transfer;
    var n := |Content(fs, TmpName(names[p]))| + 1;
    var first, other := Repeat(1, n), Repeat(2, n + 1);
    var x, y, z := Request(p, first, 0, n + 1), Request(q, other, 0, n + 1), Request(p, [1], n, n + 1);
    TwoChunks(p, first, [1]);
    OneChunk(q, other);
    OnlyOfThree(x, y, z, p, q);
    assert TwoTransfers(names, fs, [x, y, z], p, [first, [1]], q, [other]);
    SharedTmpLosesData(names, fs, p, q, first, other, 1);
    assert (first + [1])[0] == 1 && (Zeros(n) + [1])[0] == Zeros(n)[0] == 0;
    assert !Delivers(names, fs, [x, y, z], p, [first, [1]]);
  }

  lemma OnlyOfThree(x: Request, y: Request, z: Request, p: string, q: string)
    requires x.path == z.path == p && y.path == q && p != q
    ensures Only([x, y, z], p) == [x, z] && Only([x, y, z], q) == [y]
  {
    assert [] + [x] == [x] && [x] + [y] == [x, y] && [x, y] + [z] == [x, y, z];
    OnlySnoc([], x, p);
    OnlySnoc([x], y, p);
    OnlySnoc([x, y], z, p);
    OnlySnoc([], x, q);
    OnlySnoc([x], y, q);
    OnlySnoc([x, y], z, q);
  }

  /** Every interleaving of every two complete transfers delivers both files exactly when the two requests have no
      file in common. */
  lemma BothDeliveredExactly(names: map<string, string>, fs: Files, p: string, q: string)
    requires p in names && q in names && p != q
    requires Ready(names, fs, p, names[p]) && Ready(names, fs, q, names[q])
    ensures AlwaysBothDelivered(names, fs, p, q)
       <==> {names[p], TmpName(names[p])} !! {names[q], TmpName(names[q])}
  {
    hide AlwaysBothDelivered, TmpName;
    if {names[p], TmpName(names[p])} !! {names[q], TmpName(names[q])} {
      DisjointSuffices(names, fs, p, q);
    } else if names[p] == names[q] || names[q] == TmpName(names[p]) || names[p] == TmpName(names[q]) {
      TargetsClash(names, fs, p, q);
    } else {
      TmpsClash(names, fs, p, q);
    }
  }
}
