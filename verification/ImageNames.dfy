/** Names of stored images: what is accepted, how instances are kept apart, and what TFTP resolves. */
module ImageNames {
  import opened Bytes

  // ---- Go string and path functions -------------------------------------------------

  /** path.Base, and filepath.Base on Unix: "." for the empty path and "/" for slashes only. */
  function Base(p: string): string {
    if p == "" then "."
    else
      var t := TrimTrailing(p, '/');
      if t == "" then "/" else AfterLast(t, '/')
  }

  predicate IsSpace(c: char) {
    || '\t' <= c <= '\r' || c == ' ' || c == '\U{0085}' || c == '\U{00A0}' || c == '\U{1680}'
    || c == '\U{2028}' || c == '\U{2029}' || c == '\U{202F}' || c == '\U{205F}' || c == '\U{3000}'
    || '\U{2000}' <= c <= '\U{200A}'
  }

  function TrimSpaceRight(s: string): string {
    if s != [] && IsSpace(s[|s| - 1]) then TrimSpaceRight(s[..|s| - 1]) else s
  }

  function TrimSpaceLeft(s: string): string {
    if s != [] && IsSpace(s[0]) then TrimSpaceLeft(s[1..]) else s
  }

  function TrimSpace(s: string): string {
    TrimSpaceRight(TrimSpaceLeft(s))
  }

  predicate ContainsAny(s: string, a: char, b: char) {
    exists i :: 0 <= i < |s| && (s[i] == a || s[i] == b)
  }

  // ---- Accepted names ------------------------------------------------------------------

  /** The checks of sanitize, in its order. */
  function Sanitize(name: string): Option<string> {
    var base := Base(name);
    if name != base || base == "" || base == "." || base == ".." || ContainsAny(name, '/', '\\')
    then None else Some(base)
  }

  /** Plain file names: not empty, not a dot directory, no separator of either kind. */
  predicate PlainName(name: string) {
    name != "" && name != "." && name != ".." && forall i :: 0 <= i < |name| ==> name[i] != '/' && name[i] != '\\'
  }

  lemma {:induction false} NoSlashBase(s: string)
    requires forall i :: 0 <= i < |s| ==> s[i] != '/'
    ensures AfterLast(s, '/') == s && TrimTrailing(s, '/') == s
    decreases |s|
  {
    if s != [] {
      NoSlashBase(s[..|s| - 1]);
      assert s == s[..|s| - 1] + [s[|s| - 1]];
    }
  }

  /** Exactly the plain names are accepted, unchanged. */
  lemma SanitizeExactly(name: string)
    ensures Sanitize(name) == if PlainName(name) then Some(name) else None
  {
    if forall i :: 0 <= i < |name| ==> name[i] != '/' {
      NoSlashBase(name);
    }
  }

  // ---- Instances -------------------------------------------------------------------------

  predicate IsAlnum(c: char) {
    'A' <= c <= 'Z' || 'a' <= c <= 'z' || '0' <= c <= '9'
  }

  predicate HasDashes(s: string) {
    exists i :: 0 <= i < |s| - 1 && s[i] == '-' && s[i + 1] == '-'
  }

  /** The name rule of the configuration for a non-empty name. */
  predicate ValidInstance(s: string) {
    && s != "" && IsAlnum(s[0])
    && (forall i :: 0 <= i < |s| ==> IsAlnum(s[i]) || s[i] == '.' || s[i] == '_' || s[i] == '-')
    && !HasDashes(s)
  }

  function Prefix(instance: string): string {
    if instance == "" then "" else instance + "--"
  }

  function OnDiskName(prefix: string, name: string): Option<string> {
    match Sanitize(name)
    case None => None
    case Some(base) => Some(prefix + base)
  }

  predicate HasPrefix(s: string, p: string) {
    p <= s
  }

  /** Two instances one of which is the other plus a single dash. */
  predicate DashNeighbours(a: string, b: string) {
    a == b + "-" || b == a + "-"
  }

  /** Some file would belong to both namespaces. */
  ghost predicate Share(a: string, b: string) {
    exists n: string, m: string :: PlainName(n) && PlainName(m) && Prefix(a) + n == Prefix(b) + m
  }

  /** If two namespaces have a common file, the longer name is the shorter one plus a dash. */
  lemma CommonFile(a: string, b: string, f: string)
    requires ValidInstance(a) && ValidInstance(b) && a != b && |a| <= |b|
    requires HasPrefix(f, Prefix(a)) && HasPrefix(f, Prefix(b))
    ensures b == a + "-"
  {
    assert f[..|a|] == a && f[..|b|] == b;
    assert Prefix(a)[|a|] == '-' && Prefix(a)[|a| + 1] == '-';
    assert f[|a|] == '-' && f[|a| + 1] == '-';
    assert forall i :: 0 <= i < |b| ==> b[i] == f[i];
    assert |b| == |a| + 1 ==> b == a + "-";
    assert |b| == |a| ==> a == b;
  }

  /** Distinct namespaces can share a file exactly when one name is the other plus a single dash. */
  lemma ShareExactly(a: string, b: string)
    requires ValidInstance(a) && ValidInstance(b) && a != b
    ensures Share(a, b) <==> DashNeighbours(a, b)
  {
    if Share(a, b) {
      var n: string, m: string :| PlainName(n) && PlainName(m) && Prefix(a) + n == Prefix(b) + m;
      var f := Prefix(a) + n;
      assert HasPrefix(f, Prefix(a)) && HasPrefix(f, Prefix(b));
      if |a| <= |b| {
        CommonFile(a, b, f);
      } else {
        CommonFile(b, a, f);
      }
    }
    if b == a + "-" {
      assert Prefix(a) + "-x" == Prefix(b) + "x";
      assert PlainName("-x") && PlainName("x");
    }
    if a == b + "-" {
      assert Prefix(b) + "-x" == Prefix(a) + "x";
      assert PlainName("-x") && PlainName("x");
    }
  }

  // ---- TFTP ------------------------------------------------------------------------------------

  /** The on-disk name a TFTP request resolves to in the raw store. */
  function Resolve(filename: string): Option<string> {
    OnDiskName("", Base(TrimSpace(filename)))
  }

  lemma {:induction false} TrimSpaceRightShorter(s: string)
    ensures TrimSpaceRight(s) <= s
    ensures s != [] && IsSpace(s[|s| - 1]) ==> |TrimSpaceRight(s)| < |s|
    decreases |s|
  {
    if s != [] && IsSpace(s[|s| - 1]) {
      TrimSpaceRightShorter(s[..|s| - 1]);
    }
  }

  lemma {:induction false} BaseAfterSlash(s: string)
    requires forall i :: 0 <= i < |s| ==> s[i] != '/'
    ensures Base("/" + s) == if s == "" then "/" else s
  {
    var p := "/" + s;
    if s == "" {
      assert p == "/" && p[..0] == "" && TrimTrailing("", '/') == "";
      assert TrimTrailing(p, '/') == TrimTrailing(p[..0], '/');
    } else {
      assert TrimTrailing(p, '/') == p;
      AfterSlashIs("", s);
      assert "" + "/" + s == p;
    }
  }

  lemma {:induction false} AfterSlashIs(dir: string, s: string)
    requires forall i :: 0 <= i < |s| ==> s[i] != '/'
    ensures AfterLast(dir + "/" + s, '/') == s
    decreases |s|
  {
    var p := dir + "/" + s;
    if s != [] {
      assert p[..|p| - 1] == dir + "/" + s[..|s| - 1];
      AfterSlashIs(dir, s[..|s| - 1]);
      assert s == s[..|s| - 1] + [s[|s| - 1]];
    }
  }

  lemma OnDiskIsPlain(instance: string, name: string)
    requires instance == "" || ValidInstance(instance)
    requires PlainName(name)
    ensures PlainName(Prefix(instance) + name)
  {
    var f := Prefix(instance) + name;
    forall i | 0 <= i < |f|
      ensures f[i] != '/' && f[i] != '\\'
    {
      if i < |instance| {
        assert f[i] == instance[i];
      }
    }
    if instance != "" {
      assert |f| > 2;
    }
  }

  /** A request cut short does not resolve to the full name. */
  lemma ResolvedIsShorter(t: string, f: string)
    requires t <= "/" + f && |t| <= |f| && PlainName(f)
    ensures OnDiskName("", Base(t)) != Some(f)
  {
    SanitizeExactly(Base(t));
    if t != "" {
      var s := t[1..];
      assert t == "/" + s && s <= f;
      BaseAfterSlash(s);
    }
    assert |Base(t)| < |f| || !PlainName(Base(t));
    assert "" + Base(t) == Base(t);
  }

  /** A plain file asked for with a leading slash is found, unless its name ends in white space. */
  lemma RequestFinds(f: string)
    requires PlainName(f)
    ensures Resolve("/" + f) == Some(f) <==> !IsSpace(f[|f| - 1])
  {
    var req := "/" + f;
    assert TrimSpaceLeft(req) == req;
    var t := TrimSpaceRight(req);
    TrimSpaceRightShorter(req);
    assert req[|req| - 1] == f[|f| - 1];
    if IsSpace(f[|f| - 1]) {
      ResolvedIsShorter(t, f);
    } else {
      ResolvesPlain(f);
    }
  }

  lemma ResolvesPlain(f: string)
    requires PlainName(f)
    ensures OnDiskName("", Base("/" + f)) == Some(f)
  {
    BaseAfterSlash(f);
    SanitizeExactly(f);
    assert "" + f == f;
  }

  /**
   The request U-Boot makes for an uploaded image, a slash and its on-disk name, resolves to that very
   file exactly when the name does not end in white space.
   */
  lemma TftpFindsUpload(instance: string, name: string)
    requires instance == "" || ValidInstance(instance)
    requires PlainName(name)
    ensures OnDiskName(Prefix(instance), name) == Some(Prefix(instance) + name)
    ensures Resolve("/" + (Prefix(instance) + name)) == Some(Prefix(instance) + name)
            <==> !IsSpace(name[|name| - 1])
  {
    SanitizeExactly(name);
    OnDiskIsPlain(instance, name);
    RequestFinds(Prefix(instance) + name);
  }
}
