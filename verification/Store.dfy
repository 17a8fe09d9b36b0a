/** The store object over a shared directory, step by step: temporary file, chunked copy, rename. */
module Store {
  import opened Bytes
  import Crc32
  import opened ImageNames
  import IS = ImageStore

  /** Lexicographic order on names. */
  predicate Before(a: string, b: string) {
    if b == "" then false else if a == "" then true
    else if a[0] != b[0] then a[0] < b[0] else Before(a[1..], b[1..])
  }

  lemma {:induction false} BeforeIsTotal(a: string, b: string)
    ensures a == b || Before(a, b) || Before(b, a)
    ensures !(Before(a, b) && Before(b, a)) && !Before(a, a)
  {
    if a != "" && b != "" {
      BeforeIsTotal(a[1..], b[1..]);
      assert a == [a[0]] + a[1..] && b == [b[0]] + b[1..];
    }
    if a != "" {
      BeforeIsTotal(a[1..], a[1..]);
    }
  }

  lemma {:induction false} BeforeIsTransitive(a: string, b: string, c: string)
    requires Before(a, b) && Before(b, c)
    ensures Before(a, c)
  {
    if a != "" && a[0] == b[0] == c[0] {
      BeforeIsTransitive(a[1..], b[1..], c[1..]);
    }
  }

  datatype Info = Info(name: string, size: nat, checksum: bv32)

  function InfoOf(name: string, content: seq<byte>): Info {
    Info(name, |content|, Crc32.Checksum(content))
  }

  ghost predicate Sorted(out: seq<Info>) {
    forall i, j :: 0 <= i < j < |out| ==> Before(out[i].name, out[j].name)
  }

  /** The listing holds exactly these names, each with the size and checksum of its content. */
  ghost predicate Lists(out: seq<Info>, images: IS.Files) {
    && (forall e :: e in out ==> e.name in images && e == InfoOf(e.name, images[e.name]))
    && (forall n :: n in images ==> InfoOf(n, images[n]) in out)
  }

  /** The images a view shows, under the names it shows them by. */
  function Shown(files: IS.Files, prefix: string): IS.Files {
    map n | n in IS.ListOf(files, prefix) :: if prefix + n in files then files[prefix + n] else []
  }

  // ---- The directory and everything it has looked like ----------------------------------------

  /** What one system call does to the directory. */
  datatype Call =
    | Create(name: string)
    | Append(name: string, chunk: seq<byte>)
    | Rename(from: string, to: string)
    | Remove(name: string)

  predicate CanDo(files: IS.Files, a: Call) {
    match a
    case Create(name) => name !in files
    case Append(name, _) => name in files
    case Rename(from, _) => from in files
    case Remove(name) => name in files
  }

  /** Renaming is atomic and replaces its target. */
  function Do(files: IS.Files, a: Call): IS.Files
    requires CanDo(files, a)
  {
    match a
    case Create(name) => files[name := []]
    case Append(name, chunk) => files[name := files[name] + chunk]
    case Rename(from, to) => (files - {from})[to := files[from]]
    case Remove(name) => files - {name}
  }

  /** Each state but the first comes from the one before by one call. */
  ghost predicate Chain(history: seq<IS.Files>, calls: seq<Call>) {
    && |history| == |calls| + 1
    && forall k :: 0 <= k < |calls| ==> CanDo(history[k], calls[k]) && history[k + 1] == Do(history[k], calls[k])
  }

  lemma ChainGrows(history: seq<IS.Files>, calls: seq<Call>, a: Call)
    requires Chain(history, calls) && CanDo(history[|calls|], a)
    ensures Chain(history + [Do(history[|calls|], a)], calls + [a])
  {
    var h, c := history + [Do(history[|calls|], a)], calls + [a];
    forall k | 0 <= k < |c|
      ensures CanDo(h[k], c[k]) && h[k + 1] == Do(h[k], c[k])
    {
      assert h[k] == history[k];
      assert k < |calls| ==> c[k] == calls[k] && h[k + 1] == history[k + 1];
    }
  }

  /** A directory, and what it has looked like after each of the calls made on it. */
  class Directory {
    var files: IS.Files
    ghost var history: seq<IS.Files>
    ghost var calls: seq<Call>

    /** The history accounts for the present files. */
    ghost predicate Valid()
      reads this
    {
      Chain(history, calls) && history[|calls|] == files
    }

    constructor ()
      ensures Valid() && files == map[] && calls == []
    {
      files, history, calls := map[], [map[]], [];
    }

    method Perform(a: Call)
      requires Valid() && CanDo(files, a)
      modifies this
      ensures Valid() && files == Do(old(files), a)
      ensures history == old(history) + [files] && calls == old(calls) + [a]
    {
      ChainGrows(history, calls, a);
      match a {
        case Create(name) => files := files[name := []];
        case Append(name, chunk) => files := files[name := files[name] + chunk];
        case Rename(from, to) => files := (files - {from})[to := files[from]];
        case Remove(name) => files := files - {name};
      }
      history, calls := history + [files], calls + [a];
    }
  }

  /** What the directory holds but for one file. */
  function Without(files: IS.Files, name: string): IS.Files {
    files - {name}
  }

  /** In states n to m of the history, m not included, the directory without temp is `was`. */
  ghost predicate Undisturbed(history: seq<IS.Files>, n: nat, m: nat, temp: string, was: IS.Files)
    requires m <= |history|
  {
    forall k :: n <= k < m ==> Without(history[k], temp) == was
  }

  lemma StaysUndisturbed(h: seq<IS.Files>, h': seq<IS.Files>, n: nat, m: nat, temp: string, was: IS.Files)
    requires m <= |h| && h <= h' && Undisturbed(h, n, m, temp, was)
    ensures Undisturbed(h', n, m, temp, was)
  {
  }

  /** Renaming a complete upload into place is saving it. */
  lemma RenameSaves(was: IS.Files, temp: string, file: string, content: seq<byte>)
    requires temp !in was
    ensures Do(was[temp := content], Rename(temp, file)) == was[file := content]
    ensures Do(was[temp := content], Remove(temp)) == was
  {
  }

  lemma NameOnDisk(prefix: string, name: string)
    ensures OnDiskName(prefix, name) == if PlainName(name) then Some(prefix + name) else None
  {
    SanitizeExactly(name);
  }

  /** In the shared directory a save is this: refused for a bad name, and otherwise a save to the view's file. */
  lemma SaveIsExec(files: IS.Files, prefix: string, name: string, content: Option<seq<byte>>, overwrite: bool)
    ensures IS.Exec(files, prefix, IS.Save(name, content, overwrite))
            == if PlainName(name) then IS.SaveTo(files, prefix + name, name, content, overwrite)
               else (files, IS.InvalidName)
  {
    NameOnDisk(prefix, name);
  }

  class Store {
    const dir: Directory
    const prefix: string

    constructor (dir: Directory)
      ensures this.dir == dir && prefix == ""
    {
      this.dir, prefix := dir, "";
    }

    /** A view whose files carry the instance's prefix; no instance name gives the raw view. */
    constructor Namespaced(s: Store, instance: string)
      ensures dir == s.dir && prefix == Prefix(instance)
    {
      dir := s.dir;
      prefix := if instance != "" then instance + "--" else "";
    }

    /** Adds one chunk to a file and to the running checksum of it. */
    method AppendTo(temp: string, chunk: seq<byte>, crc: bv32) returns (next: bv32)
      requires dir.Valid() && temp in dir.files && crc == Crc32.Update(Crc32.ALL_ONES, dir.files[temp])
      modifies dir
      ensures dir.Valid() && dir.history == old(dir.history) + [dir.files]
      ensures dir.files == old(dir.files)[temp := old(dir.files)[temp] + chunk]
      ensures next == Crc32.Update(Crc32.ALL_ONES, dir.files[temp])
      ensures Without(dir.files, temp) == Without(old(dir.files), temp)
    {
      Crc32.UpdateInPieces(Crc32.ALL_ONES, dir.files[temp], chunk);
      dir.Perform(Append(temp, chunk));
      next := Crc32.Update(crc, chunk);
    }

    /** Streams the chunks into an existing empty file. */
    method CopyTo(temp: string, chunks: seq<seq<byte>>) returns (n: nat, sum: bv32)
      requires dir.Valid() && temp in dir.files && dir.files[temp] == []
      modifies dir
      ensures dir.Valid() && old(dir.history) <= dir.history
      ensures dir.files == old(dir.files)[temp := Flatten(chunks)]
      ensures n == |Flatten(chunks)| && sum == Crc32.Checksum(Flatten(chunks))
      ensures forall k :: |old(dir.history)| <= k < |dir.history| ==>
                Without(dir.history[k], temp) == Without(old(dir.files), temp)
    {
      var crc := Crc32.ALL_ONES;
      n := 0;
      for i := 0 to |chunks|
        invariant dir.Valid() && old(dir.history) <= dir.history
        invariant dir.files == old(dir.files)[temp := Flatten(chunks[..i])] && n == |Flatten(chunks[..i])|
        invariant crc == Crc32.Update(Crc32.ALL_ONES, dir.files[temp])
        invariant Without(dir.files, temp) == Without(old(dir.files), temp)
        invariant forall k :: |old(dir.history)| <= k < |dir.history| ==>
                    Without(dir.history[k], temp) == Without(old(dir.files), temp)
      {
        assert chunks[..i + 1] == chunks[..i] + [chunks[i]];
        FlattenSnoc(chunks[..i], chunks[i]);
        crc := AppendTo(temp, chunks[i], crc);
        n := n + |chunks[i]|;
      }
      assert chunks[..|chunks|] == chunks;
      sum := crc ^ Crc32.ALL_ONES;
    }

    /** Creates the temporary file and fills it. */
    method Upload(temp: string, chunks: seq<seq<byte>>) returns (n: nat, sum: bv32)
      requires dir.Valid() && temp !in dir.files
      modifies dir
      ensures dir.Valid() && old(dir.history) < dir.history && |dir.calls| > |old(dir.calls)|
      ensures dir.files == old(dir.files)[temp := Flatten(chunks)]
      ensures n == |Flatten(chunks)| && sum == Crc32.Checksum(Flatten(chunks))
      ensures Undisturbed(dir.history, |old(dir.history)|, |dir.history|, temp, old(dir.files))
    {
      dir.Perform(Create(temp));
      assert Without(dir.files, temp) == old(dir.files);
      n, sum := CopyTo(temp, chunks);
    }

    /** Renames the complete upload into place, or removes what was read of it. */
    method Place(temp: string, file: string, ok: bool, ghost was: IS.Files, ghost content: seq<byte>)
      requires dir.Valid() && temp !in was && temp != file && dir.files == was[temp := content]
      modifies dir
      ensures dir.Valid() && dir.files == if ok then was[file := content] else was
      ensures dir.history == old(dir.history) + [dir.files]
      ensures |dir.calls| == |old(dir.calls)| + 1 < |dir.history|
      ensures dir.calls[|old(dir.calls)|] == if ok then Rename(temp, file) else Remove(temp)
      ensures dir.history[|old(dir.calls)|] == was[temp := content]
    {
      RenameSaves(was, temp, file, content);
      // The deferred clean-up finds no temporary file after the rename.
      dir.Perform(if ok then Rename(temp, file) else Remove(temp));
      assert dir.history[|old(dir.calls)|] == old(dir.history[|dir.calls|]);
    }

    /** The upload and its end. */
    method Transfer(temp: string, file: string, chunks: seq<seq<byte>>, ok: bool) returns (n: nat, sum: bv32)
      requires dir.Valid() && temp !in dir.files && temp != file
      modifies dir
      ensures dir.Valid() && old(dir.history) <= dir.history && |old(dir.calls)| < |dir.calls| < |dir.history|
      ensures dir.files == if ok then old(dir.files)[file := Flatten(chunks)] else old(dir.files)
      ensures n == |Flatten(chunks)| && sum == Crc32.Checksum(Flatten(chunks))
      ensures Undisturbed(dir.history, |old(dir.history)|, |dir.history| - 1, temp, old(dir.files))
      ensures ok ==> && dir.calls[|dir.calls| - 1] == Rename(temp, file)
                     && dir.history[|dir.calls| - 1] == old(dir.files)[temp := Flatten(chunks)]
    {
      n, sum := Upload(temp, chunks);
      ghost var h := dir.history;
      Place(temp, file, ok, old(dir.files), Flatten(chunks));
      StaysUndisturbed(h, dir.history, |old(dir.history)|, |h|, temp, old(dir.files));
    }

    /** The view's file of that name. */
    method FileOf(name: string) returns (path: Option<string>)
      ensures path == if PlainName(name) then Some(prefix + name) else None
    {
      NameOnDisk(prefix, name);
      path := OnDiskName(prefix, name);
    }

    /** An upload to a file of this view. */
    method Put(name: string, file: string, chunks: seq<seq<byte>>, ok: bool, overwrite: bool, temp: string)
      returns (r: IS.Result, info: Option<Info>)
      requires dir.Valid() && temp !in dir.files && temp != file
      modifies dir
      ensures dir.Valid() && old(dir.history) <= dir.history
      ensures (dir.files, r) == IS.SaveTo(old(dir.files), file, name, if ok then Some(Flatten(chunks)) else None,
                                          overwrite)
      ensures info == if r.Saved? then Some(InfoOf(name, Flatten(chunks))) else None
      ensures Undisturbed(dir.history, |old(dir.history)|, |dir.history| - 1, temp, old(dir.files))
      ensures r.Saved? ==>
                var n := |dir.calls|;
                && n > |old(dir.calls)| && dir.calls[n - 1] == Rename(temp, file)
                && dir.history[n - 1][temp] == Flatten(chunks)
    {
      if !overwrite && file in dir.files {
        return IS.AlreadyExists, None;
      }
      var n, sum := Transfer(temp, file, chunks, ok);
      if !ok {
        return IS.ReadFailed, None;
      }
      r, info := IS.Saved(name, n), Some(Info(name, n, sum));
    }

    /**
     Streams an upload into a temporary file and renames it into place. `temp` is the fresh name the
     system picked, and the reader fails after `chunks` unless `ok`.

     At no moment does the directory, temporary file aside, show anything but what it held before, until
     the last call made; and if the upload is saved, that call is the rename of the complete file.
     */
    method Save(name: string, chunks: seq<seq<byte>>, ok: bool, overwrite: bool, temp: string)
      returns (r: IS.Result, info: Option<Info>)
      requires dir.Valid() && HasPrefix(temp, IS.TEMP) && temp !in dir.files && temp != prefix + name
      modifies dir
      ensures dir.Valid() && old(dir.history) <= dir.history
      ensures !PlainName(name) ==> r == IS.InvalidName && dir.files == old(dir.files)
      ensures PlainName(name) ==>
                (dir.files, r) == IS.SaveTo(old(dir.files), prefix + name, name,
                                            if ok then Some(Flatten(chunks)) else None, overwrite)
      ensures Undisturbed(dir.history, |old(dir.history)|, |dir.history| - 1, temp, old(dir.files))
      ensures info == if r.Saved? then Some(InfoOf(name, Flatten(chunks))) else None
      ensures r.Saved? ==>
                var n := |dir.calls|;
                && n > |old(dir.calls)| && dir.calls[n - 1] == Rename(temp, prefix + name)
                && dir.history[n - 1][temp] == Flatten(chunks)
    {
      var path := FileOf(name);
      if path.None? {
        return IS.InvalidName, None;
      }
      r, info := Put(name, path.value, chunks, ok, overwrite, temp);
    }

    method Delete(name: string) returns (r: IS.Result)
      requires dir.Valid()
      modifies dir
      ensures dir.Valid() && (dir.files, r) == IS.Exec(old(dir.files), prefix, IS.Delete(name))
      ensures r == (if !PlainName(name) then IS.InvalidName
                    else if prefix + name in old(dir.files) then IS.Deleted else IS.Missing)
      ensures dir.files == if r.Deleted? then old(dir.files) - {prefix + name} else old(dir.files)
    {
      NameOnDisk(prefix, name);
      var path := FileOf(name);
      if path.None? {
        return IS.InvalidName;
      }
      if path.value !in dir.files {
        return IS.Missing;
      }
      dir.Perform(Remove(path.value));
      r := IS.Deleted;
    }

    /** The images of this view, sorted by name: files in progress and other instances' files are skipped. */
    method List() returns (out: seq<Info>)
      ensures Sorted(out) && Lists(out, Shown(dir.files, prefix))
    {
      out := [];
      var todo := dir.files.Keys;
      ghost var images: IS.Files := map[];
      while todo != {}
        invariant todo <= dir.files.Keys
        invariant Sorted(out) && Lists(out, images)
        invariant forall n: string :: n in images <==>
                    prefix + n in dir.files && prefix + n !in todo && IS.Listed(prefix, prefix + n)
        invariant forall n: string :: n in images ==> images[n] == dir.files[prefix + n]
        decreases todo
      {
        var phys := AnyOf(todo);
        ghost var before := todo;
        todo := todo - {phys};
        if HasPrefix(phys, IS.TEMP) || (prefix != "" && !HasPrefix(phys, prefix)) {
          continue;
        }
        var name := IS.Strip(prefix, phys);
        IS.StripInverse(prefix);
        forall n: string | prefix + n == phys
          ensures n == name
        {
          IS.PrefixIsInjective(prefix, n, name);
        }
        var content := dir.files[phys];
        InsertLists(out, images, name, content);
        out := Insert(out, InfoOf(name, content));
        images := images[name := content];
      }
      SameListing(images, dir.files, prefix);
    }
  }

  lemma SameListing(images: IS.Files, files: IS.Files, prefix: string)
    requires forall n: string :: n in images <==> prefix + n in files && IS.Listed(prefix, prefix + n)
    requires forall n: string :: n in images ==> images[n] == files[prefix + n]
    ensures images == Shown(files, prefix)
  {
    forall n: string
      ensures n in images <==> n in Shown(files, prefix)
      ensures n in images ==> images[n] == Shown(files, prefix)[n]
    {
      IS.ListedAt(files, prefix, n);
    }
  }

  /** What is shown is the listing of the shared directory, with the contents behind the sizes. */
  lemma ShownIsListed(files: IS.Files, prefix: string)
    ensures Shown(files, prefix).Keys == IS.ListOf(files, prefix).Keys
    ensures forall n :: n in Shown(files, prefix) ==> |Shown(files, prefix)[n]| == IS.ListOf(files, prefix)[n]
  {
    forall n | n in Shown(files, prefix)
      ensures |Shown(files, prefix)[n]| == IS.ListOf(files, prefix)[n]
    {
      IS.ListedAt(files, prefix, n);
    }
  }

  /** What a save reports of an image is what a listing reports of it afterwards, by any route back to the file. */
  lemma SavedAsListed(files: IS.Files, instance: string, name: string, content: seq<byte>, out: seq<Info>)
    requires ValidInstance(instance) && PlainName(name)
    requires Lists(out, Shown(files[Prefix(instance) + name := content], Prefix(instance)))
    ensures InfoOf(name, content) in out
    ensures forall e :: e in out && e.name == name ==> e == InfoOf(name, content)
  {
    var files' := files[Prefix(instance) + name := content];
    IS.ListedAt(files', Prefix(instance), name);
    IS.NeverTemp(instance, name);
    assert Shown(files', Prefix(instance))[name] == content;
  }

  /** A new entry in its place in a sorted listing. */
  function Insert(out: seq<Info>, x: Info): seq<Info> {
    if out == [] || Before(x.name, out[0].name) then [x] + out else [out[0]] + Insert(out[1..], x)
  }

  lemma {:induction false} InsertMembers(out: seq<Info>, x: Info)
    ensures forall e :: e in Insert(out, x) <==> e == x || e in out
    decreases |out|
  {
    if out != [] && !Before(x.name, out[0].name) {
      InsertMembers(out[1..], x);
      assert out == [out[0]] + out[1..];
    }
  }

  lemma {:induction false} InsertSorted(out: seq<Info>, x: Info)
    requires Sorted(out) && forall e :: e in out ==> e.name != x.name
    ensures Sorted(Insert(out, x))
    decreases |out|
  {
    if out != [] {
      BeforeIsTotal(x.name, out[0].name);
      if Before(x.name, out[0].name) {
        forall i | 1 <= i < |out|
          ensures Before(x.name, out[i].name)
        {
          BeforeIsTransitive(x.name, out[0].name, out[i].name);
        }
      } else {
        InsertSorted(out[1..], x);
        InsertMembers(out[1..], x);
        var rest := Insert(out[1..], x);
        forall i | 0 <= i < |rest|
          ensures Before(out[0].name, rest[i].name)
        {
          assert rest[i] in rest;
        }
      }
    }
  }

  lemma InsertLists(out: seq<Info>, images: IS.Files, name: string, content: seq<byte>)
    requires Sorted(out) && Lists(out, images) && name !in images
    ensures Sorted(Insert(out, InfoOf(name, content)))
    ensures Lists(Insert(out, InfoOf(name, content)), images[name := content])
  {
    InsertSorted(out, InfoOf(name, content));
    InsertMembers(out, InfoOf(name, content));
  }
}
