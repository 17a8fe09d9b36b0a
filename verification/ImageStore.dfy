/**
 The image store: several instances keep their files in one directory, each seeing only its own under
 their own names. Operations are functions on the directory first, then methods of the store.
 */
module ImageStore {
  import opened Bytes
  import opened ImageNames

  type Files = map<string, seq<byte>>

  const TEMP: string := ".upload-"

  // ---- Operations on the directory ------------------------------------------------------

  /** A save brings its content, or fails part way through reading it. */
  datatype Op =
    | Save(name: string, content: Option<seq<byte>>, overwrite: bool)
    | Delete(name: string)
    | List

  datatype Result =
    | InvalidName | AlreadyExists | ReadFailed | Missing
    | Saved(name: string, size: nat)
    | Deleted
    | Listing(sizes: map<string, nat>)

  /** Files a view lists: none still being uploaded, and for an instance only its own. */
  predicate Listed(prefix: string, file: string) {
    !HasPrefix(file, TEMP) && HasPrefix(file, prefix)
  }

  function Strip(prefix: string, file: string): string {
    if HasPrefix(file, prefix) then file[|prefix|..] else file
  }

  lemma StripInverse(prefix: string)
    ensures forall f :: HasPrefix(f, prefix) ==> prefix + Strip(prefix, f) == f
    ensures forall n: string :: Strip(prefix, prefix + n) == n
  {
    forall n: string
      ensures Strip(prefix, prefix + n) == n
    {
      assert (prefix + n)[|prefix|..] == n;
    }
  }

  function ListOf(files: Files, prefix: string): map<string, nat> {
    StripInverse(prefix);
    map f | f in files && Listed(prefix, f) :: Strip(prefix, f) := |files[f]|
  }

  /** A save to this file under that name. */
  function SaveTo(files: Files, file: string, name: string, content: Option<seq<byte>>, overwrite: bool)
    : (Files, Result) {
    if !overwrite && file in files then (files, AlreadyExists)
    else if content.None? then (files, ReadFailed)
    else (files[file := content.value], Saved(name, |content.value|))
  }

  function Exec(files: Files, prefix: string, op: Op): (Files, Result) {
    match op
    case Save(name, content, overwrite) =>
      (match OnDiskName(prefix, name)
       case None => (files, InvalidName)
       case Some(file) => SaveTo(files, file, name, content, overwrite))
    case Delete(name) =>
      (match OnDiskName(prefix, name)
       case None => (files, InvalidName)
       case Some(file) => if file in files then (files - {file}, Deleted) else (files, Missing))
    case List => (files, Listing(ListOf(files, prefix)))
  }

  // ---- A private map ---------------------------------------------------------------------------

  /** The same operations on a map that belongs to one instance alone. */
  function PrivateExec(m: Files, op: Op): (Files, Result) {
    match op
    case Save(name, content, overwrite) =>
      if !PlainName(name) then (m, InvalidName)
      else if !overwrite && name in m then (m, AlreadyExists)
      else if content.None? then (m, ReadFailed)
      else (m[name := content.value], Saved(name, |content.value|))
    case Delete(name) =>
      if !PlainName(name) then (m, InvalidName)
      else if name in m then (m - {name}, Deleted) else (m, Missing)
    case List => (m, Listing(map n | n in m :: |m[n]|))
  }

  /** What an instance owns of the directory, under its own names. */
  function Owned(files: Files, prefix: string): Files {
    StripInverse(prefix);
    map f | f in files && HasPrefix(f, prefix) :: Strip(prefix, f) := files[f]
  }

  lemma OwnedAt(files: Files, prefix: string, n: string)
    ensures n in Owned(files, prefix) <==> prefix + n in files
    ensures n in Owned(files, prefix) ==> Owned(files, prefix)[n] == files[prefix + n]
  {
    StripInverse(prefix);
    if prefix + n in files {
      assert HasPrefix(prefix + n, prefix) && Strip(prefix, prefix + n) == n;
    }
  }

  lemma ListedAt(files: Files, prefix: string, n: string)
    ensures n in ListOf(files, prefix) <==> prefix + n in files && Listed(prefix, prefix + n)
    ensures n in ListOf(files, prefix) ==> ListOf(files, prefix)[n] == |files[prefix + n]|
  {
    StripInverse(prefix);
    if prefix + n in files && Listed(prefix, prefix + n) {
      assert Strip(prefix, prefix + n) == n;
    }
  }

  lemma PrefixIsInjective(prefix: string, a: string, b: string)
    requires prefix + a == prefix + b
    ensures a == b
  {
    assert a == (prefix + a)[|prefix|..];
    assert b == (prefix + b)[|prefix|..];
  }

  lemma OwnedAfterSave(files: Files, prefix: string, name: string, content: seq<byte>)
    ensures Owned(files[prefix + name := content], prefix) == Owned(files, prefix)[name := content]
  {
    var got, want := Owned(files[prefix + name := content], prefix), Owned(files, prefix)[name := content];
    forall n: string
      ensures n in got <==> n in want
      ensures n in got ==> got[n] == want[n]
    {
      OwnedAt(files[prefix + name := content], prefix, n);
      OwnedAt(files, prefix, n);
      if prefix + n == prefix + name {
        PrefixIsInjective(prefix, n, name);
      }
    }
  }

  lemma OwnedAfterDelete(files: Files, prefix: string, name: string)
    ensures Owned(files - {prefix + name}, prefix) == Owned(files, prefix) - {name}
  {
    var got, want := Owned(files - {prefix + name}, prefix), Owned(files, prefix) - {name};
    forall n: string
      ensures n in got <==> n in want
      ensures n in got ==> got[n] == want[n]
    {
      OwnedAt(files - {prefix + name}, prefix, n);
      OwnedAt(files, prefix, n);
      if prefix + n == prefix + name {
        PrefixIsInjective(prefix, n, name);
      }
    }
  }

  /** An instance name never starts with a dot, so none of its files looks like an upload in progress. */
  lemma NeverTemp(a: string, n: string)
    requires ValidInstance(a)
    ensures Listed(Prefix(a), Prefix(a) + n)
  {
    var f := Prefix(a) + n;
    assert f[0] == a[0];
    assert TEMP[0] == '.';
  }

  lemma ListIsOwned(files: Files, a: string)
    requires ValidInstance(a)
    ensures ListOf(files, Prefix(a)) == map n | n in Owned(files, Prefix(a)) :: |Owned(files, Prefix(a))[n]|
  {
    var own, l := Owned(files, Prefix(a)), ListOf(files, Prefix(a));
    var want := map n | n in own :: |own[n]|;
    forall n: string
      ensures n in l <==> n in want
      ensures n in l ==> l[n] == want[n]
    {
      OwnedAt(files, Prefix(a), n);
      ListedAt(files, Prefix(a), n);
      NeverTemp(a, n);
    }
  }

  /** To its own instance, every operation is the operation on the private map. */
  lemma ExecIsPrivate(files: Files, a: string, op: Op)
    requires ValidInstance(a)
    ensures var (files', r) := Exec(files, Prefix(a), op);
            PrivateExec(Owned(files, Prefix(a)), op) == (Owned(files', Prefix(a)), r)
  {
    match op
    case Save(name, content, overwrite) =>
      SanitizeExactly(name);
      OwnedAt(files, Prefix(a), name);
      if content.Some? {
        OwnedAfterSave(files, Prefix(a), name, content.value);
      }
    case Delete(name) =>
      SanitizeExactly(name);
      OwnedAt(files, Prefix(a), name);
      OwnedAfterDelete(files, Prefix(a), name);
    case List => ListIsOwned(files, a);
  }

  /** Namespaces that cannot collide. */
  predicate Apart(a: string, b: string) {
    a != b && !DashNeighbours(a, b)
  }

  lemma DisjointFiles(a: string, b: string, n: string, m: string)
    requires ValidInstance(a) && ValidInstance(b) && Apart(a, b)
    ensures Prefix(a) + n != Prefix(b) + m
  {
    if Prefix(a) + n == Prefix(b) + m {
      var f := Prefix(a) + n;
      assert HasPrefix(f, Prefix(a)) && HasPrefix(f, Prefix(b));
      if |a| <= |b| {
        CommonFile(a, b, f);
      } else {
        CommonFile(b, a, f);
      }
    }
  }

  /** To every other instance apart from it, an operation changes nothing. */
  lemma ExecLeavesOthers(files: Files, a: string, b: string, op: Op)
    requires ValidInstance(a) && ValidInstance(b) && Apart(a, b)
    ensures Owned(Exec(files, Prefix(a), op).0, Prefix(b)) == Owned(files, Prefix(b))
  {
    var files' := Exec(files, Prefix(a), op).0;
    forall n: string
      ensures n in Owned(files', Prefix(b)) <==> n in Owned(files, Prefix(b))
      ensures n in Owned(files', Prefix(b)) ==> Owned(files', Prefix(b))[n] == Owned(files, Prefix(b))[n]
    {
      OwnedAt(files', Prefix(b), n);
      OwnedAt(files, Prefix(b), n);
      OtherFileStays(files, a, b, op, n);
    }
  }

  /** An operation touches no file but the one it names. */
  lemma TouchesOne(files: Files, prefix: string, op: Op, f: string)
    requires op.List? || f != prefix + op.name
    ensures var files' := Exec(files, prefix, op).0;
            (f in files' <==> f in files) && (f in files ==> files'[f] == files[f])
  {
    if !op.List? {
      SanitizeExactly(op.name);
    }
  }

  lemma OtherFileStays(files: Files, a: string, b: string, op: Op, n: string)
    requires ValidInstance(a) && ValidInstance(b) && Apart(a, b)
    ensures var (files', f) := (Exec(files, Prefix(a), op).0, Prefix(b) + n);
            (f in files' <==> f in files) && (f in files ==> files'[f] == files[f])
  {
    if !op.List? {
      DisjointFiles(a, b, op.name, n);
    }
    TouchesOne(files, Prefix(a), op, Prefix(b) + n);
  }

  // ---- Any interleaving ---------------------------------------------------------------------------

  datatype Call = Call(instance: string, op: Op)

  function RunShared(files: Files, calls: seq<Call>): (Files, seq<Result>)
    decreases |calls|
  {
    if calls == [] then (files, [])
    else
      var (files', r) := Exec(files, Prefix(calls[0].instance), calls[0].op);
      var (end, rs) := RunShared(files', calls[1..]);
      (end, [r] + rs)
  }

  function RunPrivate(m: Files, ops: seq<Op>): (Files, seq<Result>)
    decreases |ops|
  {
    if ops == [] then (m, [])
    else
      var (m', r) := PrivateExec(m, ops[0]);
      var (end, rs) := RunPrivate(m', ops[1..]);
      (end, [r] + rs)
  }

  /** The operations of one instance, in order. */
  function OpsOf(a: string, calls: seq<Call>): seq<Op> {
    if calls == [] then []
    else (if calls[0].instance == a then [calls[0].op] else []) + OpsOf(a, calls[1..])
  }

  /** The results one instance got, in order. */
  function ResultsOf(a: string, calls: seq<Call>, rs: seq<Result>): seq<Result> {
    if calls == [] || rs == [] then []
    else (if calls[0].instance == a then [rs[0]] else []) + ResultsOf(a, calls[1..], rs[1..])
  }

  predicate OthersApart(a: string, calls: seq<Call>) {
    forall k :: 0 <= k < |calls| ==>
      ValidInstance(calls[k].instance) && (calls[k].instance == a || Apart(calls[k].instance, a))
  }

  /** What one call looks like to instance a: its own step of the private map, or nothing. */
  lemma OneCall(files: Files, a: string, call: Call)
    requires ValidInstance(a) && ValidInstance(call.instance) && (call.instance == a || Apart(call.instance, a))
    ensures var (files', r) := Exec(files, Prefix(call.instance), call.op);
            if call.instance == a
            then PrivateExec(Owned(files, Prefix(a)), call.op) == (Owned(files', Prefix(a)), r)
            else Owned(files', Prefix(a)) == Owned(files, Prefix(a))
  {
    if call.instance == a {
      ExecIsPrivate(files, a, call.op);
    } else {
      ExecLeavesOthers(files, call.instance, a, call.op);
    }
  }

  /** One more result, at the front. */
  lemma PrivateStep(m: Files, op: Op, ops: seq<Op>)
    ensures var (m', r) := PrivateExec(m, op);
            var (end, rs) := RunPrivate(m', ops);
            RunPrivate(m, [op] + ops) == (end, [r] + rs)
  {
    assert ([op] + ops)[1..] == ops;
  }

  lemma ResultsStep(a: string, call: Call, rest: seq<Call>, r: Result, rs: seq<Result>)
    ensures ResultsOf(a, [call] + rest, [r] + rs)
            == (if call.instance == a then [r] else []) + ResultsOf(a, rest, rs)
    ensures OpsOf(a, [call] + rest) == (if call.instance == a then [call.op] else []) + OpsOf(a, rest)
  {
    assert ([call] + rest)[1..] == rest && ([r] + rs)[1..] == rs;
  }

  /**
   Non-interference: in any interleaving of saves, deletes and lists, an instance gets the results it
   would get running its own operations alone on a private map, and ends up owning that map.
   */
  lemma {:induction false} RunsAlone(files: Files, a: string, calls: seq<Call>)
    requires ValidInstance(a) && OthersApart(a, calls)
    ensures var (end, rs) := RunShared(files, calls);
            RunPrivate(Owned(files, Prefix(a)), OpsOf(a, calls)) == (Owned(end, Prefix(a)), ResultsOf(a, calls, rs))
    decreases |calls|
  {
    if calls != [] {
      var call, rest := calls[0], calls[1..];
      assert calls == [call] + rest;
      OneCall(files, a, call);
      var (files', r) := Exec(files, Prefix(call.instance), call.op);
      RunsAlone(files', a, rest);
      var (end, rs) := RunShared(files', rest);
      ResultsStep(a, call, rest, r, rs);
      if call.instance == a {
        PrivateStep(Owned(files, Prefix(a)), call.op, OpsOf(a, rest));
      } else {
        assert [] + OpsOf(a, rest) == OpsOf(a, rest);
        assert [] + ResultsOf(a, rest, rs) == ResultsOf(a, rest, rs);
      }
    }
  }

  // ---- ... and only then ------------------------------------------------------------------------

  /** The instance's calls have the results, and leave it the files, that they would alone on a private map. */
  ghost predicate Alone(files: Files, a: string, calls: seq<Call>) {
    var (end, rs) := RunShared(files, calls);
    RunPrivate(Owned(files, Prefix(a)), OpsOf(a, calls)) == (Owned(end, Prefix(a)), ResultsOf(a, calls, rs))
  }

  predicate Between(a: string, b: string, calls: seq<Call>) {
    forall k :: 0 <= k < |calls| ==> calls[k].instance == a || calls[k].instance == b
  }

  /** A file both neighbours would call their own: "x" to the longer name, "-x" to the shorter. */
  lemma SharedFile(a: string, n: string)
    ensures Prefix(a + "-") + n == Prefix(a) + ("-" + n) || a == ""
  {
    if a != "" {
      assert a + "-" + "--" + n == a + "--" + ("-" + n);
    }
  }

  /** What a neighbour saves under a shared name shows up among this instance's files, and in its list. */
  lemma SavedNextDoor(a: string, b: string, n: string, m: string, files: Files, content: seq<byte>)
    requires ValidInstance(a) && PlainName(m) && Prefix(b) + m == Prefix(a) + n
    ensures var (files', r) := Exec(files, Prefix(b), Save(m, Some(content), true));
            && r == Saved(m, |content|)
            && n in Owned(files', Prefix(a)) && Owned(files', Prefix(a))[n] == content
            && n in ListOf(files', Prefix(a)) && ListOf(files', Prefix(a))[n] == |content|
  {
    SanitizeExactly(m);
    var files' := files[Prefix(a) + n := content];
    OwnedAt(files', Prefix(a), n);
    ListedAt(files', Prefix(a), n);
    NeverTemp(a, n);
  }

  /** Without the condition interference is real, both ways: the longer name's "x" is the shorter's "-x". */
  lemma NeighboursInterfere(a: string, files: Files, content: seq<byte>)
    requires ValidInstance(a) && ValidInstance(a + "-")
    ensures var (files', r) := Exec(files, Prefix(a + "-"), Save("x", Some(content), true));
            r.Saved? && "-x" in ListOf(files', Prefix(a)) && ListOf(files', Prefix(a))["-x"] == |content|
    ensures var (files', r) := Exec(files, Prefix(a), Save("-x", Some(content), true));
            r.Saved? && "x" in ListOf(files', Prefix(a + "-")) && ListOf(files', Prefix(a + "-"))["x"] == |content|
  {
    PlainX();
    SharedFile(a, "x");
    SavedNextDoor(a, a + "-", "-x", "x", files, content);
    SavedNextDoor(a + "-", a, "x", "-x", files, content);
  }

  lemma PlainX()
    ensures PlainName("x") && PlainName("-x") && "-" + "x" == "-x"
  {
  }

  /** Running alone through one call of another instance is keeping one's files. */
  lemma AloneKeepsFiles(a: string, files: Files, call: Call)
    requires call.instance != a && Alone(files, a, [call])
    ensures Owned(Exec(files, Prefix(call.instance), call.op).0, Prefix(a)) == Owned(files, Prefix(a))
  {
    assert [call][1..] == [];
    assert OpsOf(a, [call]) == [];
    assert RunShared(files, [call]).0 == Exec(files, Prefix(call.instance), call.op).0;
  }

  /** One call by another instance that adds to this one's files is not running alone. */
  lemma NotAlone(a: string, b: string, n: string, m: string)
    requires ValidInstance(a) && a != b && PlainName(m) && Prefix(b) + m == Prefix(a) + n
    ensures !Alone(map[], a, [Call(b, Save(m, Some([]), true))])
  {
    SavedNextDoor(a, b, n, m, map[], []);
    OwnedAt(map[], Prefix(a), n);
    if Alone(map[], a, [Call(b, Save(m, Some([]), true))]) {
      AloneKeepsFiles(a, map[], Call(b, Save(m, Some([]), true)));
      assert false;
    }
  }

  lemma NeighboursNotAlone(a: string, b: string) returns (calls: seq<Call>)
    requires ValidInstance(a) && ValidInstance(b) && DashNeighbours(a, b)
    ensures Between(a, b, calls) && !Alone(map[], a, calls)
  {
    PlainX();
    if b == a + "-" {
      SharedFile(a, "x");
      NotAlone(a, b, "-x", "x");
      calls := [Call(b, Save("x", Some([]), true))];
    } else {
      SharedFile(b, "x");
      NotAlone(a, b, "x", "-x");
      calls := [Call(b, Save("-x", Some([]), true))];
    }
  }

  /** Instances with two distinct valid names run as if each were alone, in every interleaving, exactly when
      neither name is the other plus a dash. */
  lemma AloneExactly(a: string, b: string)
    requires ValidInstance(a) && ValidInstance(b) && a != b
    ensures (forall files: Files, calls: seq<Call> :: Between(a, b, calls) ==> Alone(files, a, calls)) <==> Apart(a, b)
  {
    if Apart(a, b) {
      forall files: Files, calls: seq<Call> | Between(a, b, calls)
        ensures Alone(files, a, calls)
      {
        RunsAlone(files, a, calls);
      }
    } else {
      var calls := NeighboursNotAlone(a, b);
    }
  }
}
