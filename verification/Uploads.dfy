/**
 Uploads whose system calls interleave: each checks for the file, creates its temporary file, copies and renames while
 others do the same in one directory, and files are deleted and listed in between. Exactly when that is as if each
 were done at one moment; and instances that cannot share files stay independent at this granularity too.
 */
module Uploads {
  import opened Bytes
  import opened ImageNames
  import IS = ImageStore

  type Files = IS.Files

  /** An upload, with the temporary name it is given. Its reader fails after the chunks unless ok. */
  datatype Upload = Upload(
    instance: string, name: string, chunks: seq<seq<byte>>, ok: bool, overwrite: bool, temp: string)

  /** Where an upload has got to: before its check, before creating its file, with so many chunks copied, at its end. */
  datatype Phase = Starting | Creating | Copying(k: nat) | Done(result: IS.Result)

  datatype State = State(files: Files, phases: seq<Phase>)

  /** The next system call of one upload, or a delete or listing. */
  datatype Move = Act(i: nat) | Other(call: IS.Call)

  function FileOf(u: Upload): string {
    Prefix(u.instance) + u.name
  }

  // ---- One system call --------------------------------------------------------------------------------

  function Held(files: Files, f: string): seq<byte> {
    if f in files then files[f] else []
  }

  /** The name is looked at and, unless it may be overwritten, the file looked for. */
  function Check(files: Files, u: Upload): Phase {
    if !PlainName(u.name) then Done(IS.InvalidName)
    else if !u.overwrite && FileOf(u) in files then Done(IS.AlreadyExists)
    else Creating
  }

  /** The rename into place, or after a failed read the removal. */
  function Finish(files: Files, u: Upload): (Files, Phase) {
    if u.ok
    then ((files - {u.temp})[FileOf(u) := Held(files, u.temp)], Done(IS.Saved(u.name, |Held(files, u.temp)|)))
    else (files - {u.temp}, Done(IS.ReadFailed))
  }

  function Next(files: Files, u: Upload, p: Phase): (Files, Phase) {
    match p
    case Starting => (files, Check(files, u))
    case Creating => (files[u.temp := []], Copying(0))
    case Copying(k) =>
      if k < |u.chunks| then (files[u.temp := Held(files, u.temp) + u.chunks[k]], Copying(k + 1)) else Finish(files, u)
    case Done(_) => (files, p)
  }

  function Step(us: seq<Upload>, s: State, m: Move): State {
    match m
    case Act(i) =>
      if i < |us| && i < |s.phases| then
        var (files, p) := Next(s.files, us[i], s.phases[i]);
        State(files, s.phases[i := p])
      else s
    case Other(call) => s.(files := IS.Exec(s.files, Prefix(call.instance), call.op).0)
  }

  function Run(us: seq<Upload>, s: State, ms: seq<Move>): State
    decreases |ms|
  {
    if ms == [] then s else Run(us, Step(us, s, ms[0]), ms[1..])
  }

  // ---- What holds throughout -----------------------------------------------------------------------------

  /** Temporary names are fresh: like nothing stored and like no other upload's. */
  ghost predicate Fair(us: seq<Upload>) {
    && (forall i :: 0 <= i < |us| ==> ValidInstance(us[i].instance) && HasPrefix(us[i].temp, IS.TEMP))
    && forall i, j :: 0 <= i < j < |us| ==> us[i].temp != us[j].temp
  }

  /** An upload in progress has all it has copied in its temporary file, and only one in progress has one. */
  ghost predicate UploadOK(files: Files, u: Upload, p: Phase) {
    match p
    case Starting => u.temp !in files
    case Creating => u.temp !in files && PlainName(u.name)
    case Copying(k) =>
      PlainName(u.name) && k <= |u.chunks| && u.temp in files && files[u.temp] == Flatten(u.chunks[..k])
    case Done(_) => u.temp !in files
  }

  ghost predicate Inv(us: seq<Upload>, s: State) {
    |s.phases| == |us| && forall i :: 0 <= i < |us| ==> UploadOK(s.files, us[i], s.phases[i])
  }

  /** Other operations on the directory: deletes and listings by named instances. */
  predicate Allowed(m: Move) {
    m.Other? ==> ValidInstance(m.call.instance) && !m.call.op.Save?
  }

  predicate AllAllowed(ms: seq<Move>) {
    forall k :: 0 <= k < |ms| ==> Allowed(ms[k])
  }

  lemma NotTemp(instance: string, name: string, temp: string)
    requires ValidInstance(instance) && HasPrefix(temp, IS.TEMP)
    ensures Prefix(instance) + name != temp
  {
    IS.NeverTemp(instance, name);
  }

  lemma OneMoreChunk(u: Upload, k: nat)
    requires k < |u.chunks|
    ensures Flatten(u.chunks[..k + 1]) == Flatten(u.chunks[..k]) + u.chunks[k]
  {
    assert u.chunks[..k + 1] == u.chunks[..k] + [u.chunks[k]];
    FlattenSnoc(u.chunks[..k], u.chunks[k]);
  }

  lemma NextOK(files: Files, u: Upload, p: Phase)
    requires ValidInstance(u.instance) && HasPrefix(u.temp, IS.TEMP) && UploadOK(files, u, p)
    ensures UploadOK(Next(files, u, p).0, u, Next(files, u, p).1)
  {
    NotTemp(u.instance, u.name, u.temp);
    if p.Copying? && p.k < |u.chunks| {
      OneMoreChunk(u, p.k);
    }
  }

  /** A call of one upload touches no other's temporary file. */
  lemma NextLeaves(files: Files, u: Upload, p: Phase, temp: string)
    requires ValidInstance(u.instance) && HasPrefix(temp, IS.TEMP) && temp != u.temp
    ensures var files' := Next(files, u, p).0;
            (temp in files' <==> temp in files) && (temp in files ==> files'[temp] == files[temp])
  {
    NotTemp(u.instance, u.name, temp);
  }

  lemma OtherLeaves(files: Files, call: IS.Call, temp: string)
    requires ValidInstance(call.instance) && HasPrefix(temp, IS.TEMP) && !call.op.Save?
    ensures var files' := IS.Exec(files, Prefix(call.instance), call.op).0;
            (temp in files' <==> temp in files) && (temp in files ==> files'[temp] == files[temp])
  {
    if call.op.Delete? {
      NotTemp(call.instance, call.op.name, temp);
    }
    IS.TouchesOne(files, Prefix(call.instance), call.op, temp);
  }

  lemma StepInv(us: seq<Upload>, s: State, m: Move)
    requires Fair(us) && Inv(us, s) && Allowed(m)
    ensures Inv(us, Step(us, s, m))
  {
    var t := Step(us, s, m);
    forall j | 0 <= j < |us|
      ensures UploadOK(t.files, us[j], t.phases[j])
    {
      match m
      case Act(i) =>
        if i == j {
          NextOK(s.files, us[i], s.phases[i]);
        } else if i < |us| {
          NextLeaves(s.files, us[i], s.phases[i], us[j].temp);
        }
      case Other(call) => OtherLeaves(s.files, call, us[j].temp);
    }
  }

  lemma {:induction false} RunInv(us: seq<Upload>, s: State, ms: seq<Move>)
    requires Fair(us) && Inv(us, s) && AllAllowed(ms)
    ensures Inv(us, Run(us, s, ms))
    decreases |ms|
  {
    if ms != [] {
      StepInv(us, s, ms[0]);
      RunInv(us, Step(us, s, ms[0]), ms[1..]);
    }
  }

  // ---- As if each were done at one moment --------------------------------------------------------------------

  /** The stored files, uploads in progress aside. */
  function Visible(files: Files): Files {
    map f | f in files && !HasPrefix(f, IS.TEMP) :: files[f]
  }

  /** The upload as one operation. */
  function CallOf(u: Upload): IS.Call {
    IS.Call(u.instance, IS.Save(u.name, if u.ok then Some(Flatten(u.chunks)) else None, u.overwrite))
  }

  datatype Effect = Effect(call: IS.Call, result: IS.Result)

  /** The operation that takes effect with this call, if one does: an upload with its rename, or with its check if it
      will not get so far. */
  function EffectOf(us: seq<Upload>, s: State, m: Move): Option<Effect> {
    match m
    case Other(call) => Some(Effect(call, IS.Exec(s.files, Prefix(call.instance), call.op).1))
    case Act(i) => if i < |us| && i < |s.phases| then UploadEffect(s.files, us[i], s.phases[i]) else None
  }

  function UploadEffect(files: Files, u: Upload, p: Phase): Option<Effect> {
    match p
    case Starting =>
      if Check(files, u).Done? then Some(Effect(CallOf(u), Check(files, u).result))
      else if !u.ok then Some(Effect(CallOf(u), IS.ReadFailed)) else None
    case Copying(k) =>
      if k >= |u.chunks| && u.ok then Some(Effect(CallOf(u), IS.Saved(u.name, |Held(files, u.temp)|))) else None
    case _ => None
  }

  /** The operations in the order in which they take effect, with their results. */
  function Order(us: seq<Upload>, s: State, ms: seq<Move>): seq<Effect>
    decreases |ms|
  {
    if ms == [] then []
    else
      var rest := Order(us, Step(us, s, ms[0]), ms[1..]);
      if EffectOf(us, s, ms[0]).Some? then [EffectOf(us, s, ms[0]).value] + rest else rest
  }

  /** Done one at a time in this order, the operations have these results and leave these files. */
  predicate Explains(files: Files, order: seq<Effect>, end: Files)
    decreases |order|
  {
    if order == [] then files == end
    else
      var (next, r) := IS.Exec(files, Prefix(order[0].call.instance), order[0].call.op);
      r == order[0].result && Explains(next, order[1..], end)
  }

  /** The call renames an upload that may not overwrite onto a file that has appeared since its check. */
  predicate Clobbers(us: seq<Upload>, s: State, m: Move) {
    && m.Act? && m.i < |us| && m.i < |s.phases| && s.phases[m.i].Copying? && s.phases[m.i].k >= |us[m.i].chunks|
    && us[m.i].ok && !us[m.i].overwrite && FileOf(us[m.i]) in s.files
  }

  predicate NeverClobbers(us: seq<Upload>, s: State, ms: seq<Move>)
    decreases |ms|
  {
    ms == [] || (!Clobbers(us, s, ms[0]) && NeverClobbers(us, Step(us, s, ms[0]), ms[1..]))
  }

  lemma VisibleTemp(files: Files, temp: string, content: seq<byte>)
    requires HasPrefix(temp, IS.TEMP)
    ensures Visible(files[temp := content]) == Visible(files) && Visible(files - {temp}) == Visible(files)
  {
  }

  lemma VisiblePut(files: Files, f: string, content: seq<byte>)
    requires !HasPrefix(f, IS.TEMP)
    ensures Visible(files[f := content]) == Visible(files)[f := content]
    ensures Visible(files - {f}) == Visible(files) - {f} && (f in Visible(files) <==> f in files)
  {
  }

  lemma NamedIsVisible(instance: string, name: string)
    requires ValidInstance(instance)
    ensures !HasPrefix(Prefix(instance) + name, IS.TEMP)
  {
    IS.NeverTemp(instance, name);
  }

  lemma ListVisible(files: Files, instance: string)
    requires ValidInstance(instance)
    ensures IS.ListOf(Visible(files), Prefix(instance)) == IS.ListOf(files, Prefix(instance))
  {
    var l, want := IS.ListOf(Visible(files), Prefix(instance)), IS.ListOf(files, Prefix(instance));
    forall n: string
      ensures n in l <==> n in want
      ensures n in l ==> l[n] == want[n]
    {
      IS.ListedAt(files, Prefix(instance), n);
      IS.ListedAt(Visible(files), Prefix(instance), n);
    }
  }

  /** A delete or listing sees and changes only stored files. */
  lemma OtherIsVisible(files: Files, call: IS.Call)
    requires ValidInstance(call.instance) && !call.op.Save?
    ensures var (files', r) := IS.Exec(files, Prefix(call.instance), call.op);
            IS.Exec(Visible(files), Prefix(call.instance), call.op) == (Visible(files'), r)
  {
    match call.op
    case Delete(name) =>
      SanitizeExactly(name);
      NamedIsVisible(call.instance, name);
      VisiblePut(files, Prefix(call.instance) + name, []);
    case List => ListVisible(files, call.instance);
  }

  /** A rename is a save at that moment, unless it clobbers. */
  lemma RenameIsSave(files: Files, u: Upload)
    requires ValidInstance(u.instance) && HasPrefix(u.temp, IS.TEMP) && u.ok && PlainName(u.name)
    requires Held(files, u.temp) == Flatten(u.chunks)
    ensures var r := IS.Exec(Visible(files), Prefix(u.instance), CallOf(u).op);
            if !u.overwrite && FileOf(u) in files then r.1 == IS.AlreadyExists
            else r == (Visible(Finish(files, u).0), IS.Saved(u.name, |Held(files, u.temp)|))
  {
    SanitizeExactly(u.name);
    NamedIsVisible(u.instance, u.name);
    VisiblePut(files, FileOf(u), []);
    VisiblePut(files - {u.temp}, FileOf(u), Held(files, u.temp));
    VisibleTemp(files, u.temp, []);
  }

  /** An upload that does not pass its check, or will fail to read, does nothing, like the operation at that moment. */
  lemma CheckIsSave(files: Files, u: Upload)
    requires ValidInstance(u.instance) && UploadEffect(files, u, Starting).Some?
    ensures IS.Exec(Visible(files), Prefix(u.instance), CallOf(u).op)
            == (Visible(files), UploadEffect(files, u, Starting).value.result)
  {
    SanitizeExactly(u.name);
    NamedIsVisible(u.instance, u.name);
    VisiblePut(files, FileOf(u), []);
  }

  /** Calls at which an upload takes no effect leave the stored files alone. */
  lemma SilentUpload(files: Files, u: Upload, p: Phase)
    requires HasPrefix(u.temp, IS.TEMP) && UploadEffect(files, u, p).None?
    ensures Visible(Next(files, u, p).0) == Visible(files)
  {
    VisibleTemp(files, u.temp, []);
    if p.Copying? && p.k < |u.chunks| {
      VisibleTemp(files, u.temp, Held(files, u.temp) + u.chunks[p.k]);
    }
  }

  lemma UploadTakesEffect(files: Files, u: Upload, p: Phase)
    requires ValidInstance(u.instance) && HasPrefix(u.temp, IS.TEMP) && UploadOK(files, u, p)
    requires UploadEffect(files, u, p).Some?
    ensures var e := UploadEffect(files, u, p).value;
            var (next, r) := IS.Exec(Visible(files), Prefix(e.call.instance), e.call.op);
            if p.Copying? && !u.overwrite && FileOf(u) in files then r != e.result
            else r == e.result && next == Visible(Next(files, u, p).0)
  {
    if p.Starting? {
      CheckIsSave(files, u);
    } else {
      assert u.chunks[..|u.chunks|] == u.chunks;
      RenameIsSave(files, u);
    }
  }

  /** One call: nothing to see, or the operation at that moment, unless it clobbers. */
  lemma StepExplained(us: seq<Upload>, s: State, m: Move)
    requires Fair(us) && Inv(us, s) && Allowed(m)
    ensures var (e, t) := (EffectOf(us, s, m), Visible(Step(us, s, m).files));
            if e.None? then !Clobbers(us, s, m) && t == Visible(s.files)
            else
              var (next, r) := IS.Exec(Visible(s.files), Prefix(e.value.call.instance), e.value.call.op);
              if Clobbers(us, s, m) then r != e.value.result else r == e.value.result && next == t
  {
    match m
    case Other(call) => OtherIsVisible(s.files, call);
    case Act(i) =>
      if i < |us| {
        assert UploadOK(s.files, us[i], s.phases[i]);
        if UploadEffect(s.files, us[i], s.phases[i]).None? {
          SilentUpload(s.files, us[i], s.phases[i]);
        } else {
          UploadTakesEffect(s.files, us[i], s.phases[i]);
        }
      }
  }

  /**
   However their calls interleave, uploads, deletes and listings have the results and leave the stored files that they
   would one at a time, each at the moment of its rename or failing check, exactly when no upload that may not
   overwrite is renamed onto a file that has appeared since it checked.
   */
  lemma {:induction false} AtomicExactly(us: seq<Upload>, s: State, ms: seq<Move>)
    requires Fair(us) && Inv(us, s) && AllAllowed(ms)
    ensures Explains(Visible(s.files), Order(us, s, ms), Visible(Run(us, s, ms).files)) <==> NeverClobbers(us, s, ms)
    decreases |ms|
  {
    if ms != [] {
      var t, rest := Step(us, s, ms[0]), ms[1..];
      var e := EffectOf(us, s, ms[0]);
      StepInv(us, s, ms[0]);
      StepExplained(us, s, ms[0]);
      AtomicExactly(us, t, rest);
      if e.Some? {
        FirstEffect(Visible(s.files), e.value, Order(us, t, rest), Visible(Run(us, s, ms).files));
      }
    }
  }

  lemma FirstEffect(files: Files, e: Effect, rest: seq<Effect>, end: Files)
    ensures var (next, r) := IS.Exec(files, Prefix(e.call.instance), e.call.op);
            Explains(files, [e] + rest, end) <==> r == e.result && Explains(next, rest, end)
  {
    assert ([e] + rest)[1..] == rest;
  }

  /** An upload that will still take effect. */
  predicate Pending(u: Upload, p: Phase) {
    p.Starting? || (u.ok && (p.Creating? || p.Copying?))
  }

  predicate Saved(p: Phase) {
    p.Done? && p.result.Saved?
  }

  lemma UploadProgress(files: Files, u: Upload, p: Phase)
    ensures var (e, q) := (UploadEffect(files, u, p), Next(files, u, p).1);
            && (Pending(u, p) ==> Pending(u, q) || (e.Some? && e.value.call == CallOf(u)
                                                    && (q.Done? ==> q == Done(e.value.result))
                                                    && (!q.Done? ==> e.value.result == IS.ReadFailed && !u.ok)))
            && (!p.Done? && !Pending(u, p) && q.Done? ==> q == Done(IS.ReadFailed))
            && (p.Done? ==> q == p) && (!p.Starting? && !Pending(u, p) ==> !Pending(u, q))
  {
  }

  lemma StepPhase(us: seq<Upload>, s: State, m: Move, i: nat)
    requires i < |us| == |s.phases|
    ensures |Step(us, s, m).phases| == |s.phases|
    ensures Step(us, s, m).phases[i] == if m == Act(i) then Next(s.files, us[i], s.phases[i]).1 else s.phases[i]
  {
  }

  /** Once its effect is behind it, an upload that fails to read can only end so, and one that is done stays so. */
  lemma {:induction false} SettledStays(us: seq<Upload>, s: State, ms: seq<Move>, i: nat)
    requires i < |us| == |s.phases| && !Pending(us[i], s.phases[i])
    ensures var t := Run(us, s, ms);
            && |t.phases| == |us|
            && (s.phases[i].Done? ==> t.phases[i] == s.phases[i])
            && (!s.phases[i].Done? && t.phases[i].Done? ==> t.phases[i] == Done(IS.ReadFailed))
    decreases |ms|
  {
    if ms != [] {
      StepPhase(us, s, ms[0], i);
      UploadProgress(s.files, us[i], s.phases[i]);
      SettledStays(us, Step(us, s, ms[0]), ms[1..], i);
    }
  }

  /** Every upload that gets done is in the order, with the result it was given. */
  lemma {:induction false} ResultIsListed(us: seq<Upload>, s: State, ms: seq<Move>, i: nat)
    requires i < |us| == |s.phases| && Pending(us[i], s.phases[i])
    ensures var t := Run(us, s, ms);
            |t.phases| == |us| && (t.phases[i].Done? ==> Effect(CallOf(us[i]), t.phases[i].result) in Order(us, s, ms))
    decreases |ms|
  {
    if ms != [] {
      var m, rest := ms[0], ms[1..];
      StepPhase(us, s, m, i);
      UploadProgress(s.files, us[i], s.phases[i]);
      if Pending(us[i], Step(us, s, m).phases[i]) {
        ResultIsListed(us, Step(us, s, m), rest, i);
      } else {
        SettledStays(us, Step(us, s, m), rest, i);
        assert EffectOf(us, s, m) == UploadEffect(s.files, us[i], s.phases[i]);
      }
    }
  }

  // ---- Two uploads of one name ---------------------------------------------------------------------------

  predicate InFlight(p: Phase) {
    p.Creating? || p.Copying?
  }

  /** It has passed its check. */
  predicate Passed(p: Phase) {
    InFlight(p) || Saved(p)
  }

  /** At some moment both have passed their check and neither has been renamed. */
  predicate Overlap(us: seq<Upload>, s: State, ms: seq<Move>, i: nat, j: nat)
    decreases |ms|
  {
    || (i < |s.phases| && j < |s.phases| && InFlight(s.phases[i]) && InFlight(s.phases[j]))
    || (ms != [] && Overlap(us, Step(us, s, ms[0]), ms[1..], i, j))
  }

  /** Two whole uploads of one file, neither of which may overwrite. */
  ghost predicate Rivals(us: seq<Upload>, i: nat, j: nat) {
    && i < |us| && j < |us| && i != j && FileOf(us[i]) == FileOf(us[j])
    && us[i].ok && us[j].ok && !us[i].overwrite && !us[j].overwrite
  }

  /** The move belongs to one of the two, or to somebody with another file. */
  predicate Aside(us: seq<Upload>, i: nat, j: nat, m: Move)
    requires i < |us|
  {
    match m
    case Act(k) => k < |us| && k != i && k != j ==> FileOf(us[k]) != FileOf(us[i])
    case Other(call) => call.op.Delete? ==> Prefix(call.instance) + call.op.name != FileOf(us[i])
  }

  predicate AllAside(us: seq<Upload>, i: nat, j: nat, ms: seq<Move>)
    requires i < |us|
  {
    forall k :: 0 <= k < |ms| ==> Aside(us, i, j, ms[k])
  }

  /** The file is there once one of the two has been renamed. */
  ghost predicate Race(us: seq<Upload>, s: State, i: nat, j: nat)
    requires i < |us| && j < |us|
  {
    && |s.phases| == |us|
    && (FileOf(us[i]) in s.files <==> Saved(s.phases[i]) || Saved(s.phases[j]))
  }

  lemma ActRaces(us: seq<Upload>, s: State, k: nat, i: nat, j: nat)
    requires Fair(us) && Rivals(us, i, j) && Race(us, s, i, j) && Aside(us, i, j, Act(k))
    ensures Race(us, Step(us, s, Act(k)), i, j)
  {
    if k < |us| {
      NotTemp(us[i].instance, us[i].name, us[k].temp);
    }
  }

  lemma OtherRaces(us: seq<Upload>, s: State, call: IS.Call, i: nat, j: nat)
    requires Rivals(us, i, j) && Race(us, s, i, j) && Aside(us, i, j, Other(call)) && !call.op.Save?
    ensures Race(us, Step(us, s, Other(call)), i, j)
  {
    IS.TouchesOne(s.files, Prefix(call.instance), call.op, FileOf(us[i]));
  }

  /** The second to check gets past it only while the first is under way. */
  lemma PassesWhileInFlight(us: seq<Upload>, s: State, m: Move, i: nat, j: nat)
    requires Rivals(us, i, j) && Race(us, s, i, j)
    ensures var t := Step(us, s, m);
            && |t.phases| == |us|
            && (Passed(t.phases[i]) && Passed(t.phases[j])
                <==> (Passed(s.phases[i]) && Passed(s.phases[j])) || (InFlight(t.phases[i]) && InFlight(t.phases[j])))
  {
    StepPhase(us, s, m, i);
    StepPhase(us, s, m, j);
  }

  lemma {:induction false} RaceRun(us: seq<Upload>, s: State, ms: seq<Move>, i: nat, j: nat)
    requires Fair(us) && Rivals(us, i, j) && Race(us, s, i, j) && AllAside(us, i, j, ms) && AllAllowed(ms)
    ensures var t := Run(us, s, ms);
            && Race(us, t, i, j)
            && (Passed(t.phases[i]) && Passed(t.phases[j])
                <==> (Passed(s.phases[i]) && Passed(s.phases[j])) || Overlap(us, s, ms, i, j))
    decreases |ms|
  {
    if ms != [] {
      assert Allowed(ms[0]) && Aside(us, i, j, ms[0]);
      match ms[0] {
        case Act(k) => ActRaces(us, s, k, i, j);
        case Other(call) => OtherRaces(us, s, call, i, j);
      }
      PassesWhileInFlight(us, s, ms[0], i, j);
      RaceRun(us, Step(us, s, ms[0]), ms[1..], i, j);
    }
  }

  /**
   Two uploads of one new name that may not overwrite: both are told they were saved exactly when both get done and at
   some moment each had passed its check and neither had been renamed.
   */
  lemma BothSavedExactly(us: seq<Upload>, s: State, ms: seq<Move>, i: nat, j: nat)
    requires Fair(us) && Rivals(us, i, j) && |s.phases| == |us| && AllAside(us, i, j, ms) && AllAllowed(ms)
    requires s.phases[i].Starting? && s.phases[j].Starting? && FileOf(us[i]) !in s.files
    ensures var t := Run(us, s, ms);
            && |t.phases| == |us|
            && (Saved(t.phases[i]) && Saved(t.phases[j])
                <==> t.phases[i].Done? && t.phases[j].Done? && Overlap(us, s, ms, i, j))
  {
    RaceRun(us, s, ms, i, j);
  }

  /** After a save the file is there, and a save that may not overwrite is refused. */
  lemma SecondRefused(files: Files, u: Upload, v: Upload)
    requires FileOf(u) == FileOf(v) && !v.overwrite
    ensures var (next, r) := IS.Exec(files, Prefix(u.instance), CallOf(u).op);
            r.Saved? ==> !IS.Exec(next, Prefix(v.instance), CallOf(v).op).1.Saved?
  {
    SanitizeExactly(u.name);
    SanitizeExactly(v.name);
  }

  /** No order of doing the two one at a time could have told both so. */
  lemma NoOrderSavesBoth(files: Files, e: Effect, f: Effect, u: Upload, v: Upload, end: Files)
    requires FileOf(u) == FileOf(v) && !v.overwrite && e.call == CallOf(u) && f.call == CallOf(v)
    requires e.result.Saved? && f.result.Saved?
    ensures !Explains(files, [e, f], end)
  {
    SecondRefused(files, u, v);
    assert [e] + [f] == [e, f] && [f] + [] == [f];
    FirstEffect(files, e, [f], end);
    FirstEffect(IS.Exec(files, Prefix(u.instance), CallOf(u).op).0, f, [], end);
  }

  /** One more move of the example run. */
  lemma AndThen(us: seq<Upload>, s: State, ms: seq<Move>, t: State, m: Move) returns (more: seq<Move>, t': State)
    requires t == Run(us, s, ms)
    ensures more == ms + [m] && t' == Step(us, t, m) == Run(us, s, more)
  {
    RunThen(us, s, ms, m);
    more, t' := ms + [m], Step(us, t, m);
  }

  lemma {:induction false} RunThen(us: seq<Upload>, s: State, ms: seq<Move>, m: Move)
    ensures Run(us, s, ms + [m]) == Step(us, Run(us, s, ms), m)
    decreases |ms|
  {
    if ms == [] {
      assert [m][1..] == [];
    } else {
      assert (ms + [m])[1..] == ms[1..] + [m];
      RunThen(us, Step(us, s, ms[0]), ms[1..], m);
    }
  }

  /** An empty upload and one of a single chunk, both past their checks of an empty directory. */
  lemma BothPass(u: Upload, v: Upload) returns (ms: seq<Move>, t: State)
    requires Fair([u, v]) && Rivals([u, v], 0, 1) && PlainName(u.name) && PlainName(v.name)
    ensures t == Run([u, v], State(map[], [Starting, Starting]), ms)
    ensures t == State(map[], [Creating, Creating]) && ms == [Act(0), Act(1)]
  {
    var us := [u, v];
    ms, t := [], State(map[], [Starting, Starting]);
    ms, t := AndThen(us, State(map[], [Starting, Starting]), ms, t, Act(0));
    ms, t := AndThen(us, State(map[], [Starting, Starting]), ms, t, Act(1));
  }

  /** The first is done before the second creates its temporary file. */
  lemma FirstDone(u: Upload, v: Upload) returns (ms: seq<Move>, t: State)
    requires Fair([u, v]) && Rivals([u, v], 0, 1) && PlainName(u.name) && PlainName(v.name) && u.chunks == []
    ensures t == Run([u, v], State(map[], [Starting, Starting]), ms)
    ensures t == State(map[FileOf(u) := []], [Done(IS.Saved(u.name, 0)), Creating])
  {
    var us := [u, v];
    ms, t := BothPass(u, v);
    ms, t := AndThen(us, State(map[], [Starting, Starting]), ms, t, Act(0));
    assert t == State(map[u.temp := []], [Copying(0), Creating]);
    ms, t := AndThen(us, State(map[], [Starting, Starting]), ms, t, Act(0));
    assert t.files == map[FileOf(u) := []];
  }

  /** Both are told they were saved, and of the first nothing is left. */
  lemma FirstIsLost(u: Upload, v: Upload, x: seq<byte>) returns (ms: seq<Move>, t: State)
    requires Fair([u, v]) && Rivals([u, v], 0, 1) && PlainName(u.name) && PlainName(v.name)
    requires u.chunks == [] && v.chunks == [x] && x != []
    ensures t == Run([u, v], State(map[], [Starting, Starting]), ms)
    ensures t.phases == [Done(IS.Saved(u.name, 0)), Done(IS.Saved(v.name, |x|))] && t.files == map[FileOf(u) := x]
  {
    var us := [u, v];
    ms, t := FirstDone(u, v);
    NotTemp(u.instance, u.name, v.temp);
    ms, t := AndThen(us, State(map[], [Starting, Starting]), ms, t, Act(1));
    assert t.files == map[FileOf(u) := [], v.temp := []];
    ms, t := AndThen(us, State(map[], [Starting, Starting]), ms, t, Act(1));
    assert [] + x == x;
    assert t.files == map[FileOf(u) := [], v.temp := x];
    ms, t := AndThen(us, State(map[], [Starting, Starting]), ms, t, Act(1));
    assert t.files == map[FileOf(u) := x];
  }

  /** Two uploads of "x" by instance "a". */
  lemma TwoUploads(content: seq<byte>) returns (u: Upload, v: Upload)
    ensures Fair([u, v]) && Rivals([u, v], 0, 1) && FileOf(u) == "a--x"
    ensures PlainName(u.name) && PlainName(v.name) && u.chunks == [] && v.chunks == [content]
  {
    u := Upload("a", "x", [], true, false, IS.TEMP + "1");
    v := Upload("a", "x", [content], true, false, IS.TEMP + "2");
    assert u.temp[8] == '1' && v.temp[8] == '2';
    assert FileOf(u) == "a" + "--" + "x" == "a--x";
  }

  /** An empty upload of "x" and one of a single byte, into an empty directory: both are told they were saved, and what
      is stored is the second. */
  lemma UploadLost() returns (us: seq<Upload>, ms: seq<Move>, t: State)
    ensures Fair(us) && Rivals(us, 0, 1) && |us| == 2 && us[0].chunks == [] && us[1].chunks == [[120]]
    ensures t == Run(us, State(map[], [Starting, Starting]), ms)
    ensures |t.phases| == 2 && Saved(t.phases[0]) && Saved(t.phases[1]) && t.files == map["a--x" := [120]]
  {
    var x: seq<byte> := [120];
    var u, v := TwoUploads(x);
    us := [u, v];
    ms, t := FirstIsLost(u, v, x);
  }

  // ---- Whole uploads only -------------------------------------------------------------------------------------

  /** The file holds exactly what this upload brought. */
  ghost predicate Brought(us: seq<Upload>, t: State, f: string, i: nat) {
    && i < |us| == |t.phases| && us[i].ok && FileOf(us[i]) == f && Saved(t.phases[i])
    && f in t.files && t.files[f] == Flatten(us[i].chunks)
  }

  /** Every stored file is one that was there before, or one whole upload. */
  ghost predicate Whole(us: seq<Upload>, was: Files, t: State) {
    forall f :: f in Visible(t.files) ==>
      (f in Visible(was) && Visible(was)[f] == t.files[f]) || exists i :: Brought(us, t, f, i)
  }

  lemma BroughtStays(us: seq<Upload>, s: State, m: Move, f: string, i: nat)
    requires Brought(us, s, f, i) && f in Step(us, s, m).files && Step(us, s, m).files[f] == s.files[f]
    ensures Brought(us, Step(us, s, m), f, i)
  {
    StepPhase(us, s, m, i);
  }

  /** What one call leaves of a stored file: nothing, what was there, or the upload just renamed. */
  lemma StepBrings(us: seq<Upload>, s: State, m: Move, f: string)
    requires Fair(us) && Inv(us, s) && Allowed(m) && f in Visible(Step(us, s, m).files)
    ensures || (f in Visible(s.files) && Step(us, s, m).files[f] == s.files[f])
            || (m.Act? && Brought(us, Step(us, s, m), f, m.i))
  {
    match m
    case Act(i) =>
      if i < |us| {
        assert UploadOK(s.files, us[i], s.phases[i]);
        assert us[i].chunks[..|us[i].chunks|] == us[i].chunks;
      }
    case Other(call) =>
      if !call.op.List? {
        SanitizeExactly(call.op.name);
      }
  }

  /** However their calls interleave, a stored file is never part of an upload or a mixture of two. */
  lemma {:induction false} WholeUploads(us: seq<Upload>, was: Files, s: State, ms: seq<Move>)
    requires Fair(us) && Inv(us, s) && AllAllowed(ms) && Whole(us, was, s)
    ensures Whole(us, was, Run(us, s, ms))
    decreases |ms|
  {
    if ms != [] {
      var t := Step(us, s, ms[0]);
      StepInv(us, s, ms[0]);
      forall f | f in Visible(t.files)
        ensures (f in Visible(was) && Visible(was)[f] == t.files[f]) || exists i :: Brought(us, t, f, i)
      {
        StepBrings(us, s, ms[0], f);
        if f in Visible(s.files) && t.files[f] == s.files[f] && exists i :: Brought(us, s, f, i) {
          var i :| Brought(us, s, f, i);
          BroughtStays(us, s, ms[0], f, i);
        }
      }
      WholeUploads(us, was, t, ms[1..]);
    }
  }

  // ---- Independence of instances ----------------------------------------------------------------------------------

  /** To instance a the two directories and the progress of its uploads are the same. */
  ghost predicate SameTo(us: seq<Upload>, a: string, s: State, t: State) {
    && |s.phases| == |t.phases| == |us|
    && IS.Owned(s.files, Prefix(a)) == IS.Owned(t.files, Prefix(a))
    && forall i :: 0 <= i < |us| && us[i].instance == a ==> SameUpload(us[i], s, t, i)
  }

  ghost predicate SameUpload(u: Upload, s: State, t: State, i: nat) {
    i < |s.phases| && i < |t.phases| && s.phases[i] == t.phases[i] && Held(s.files, u.temp) == Held(t.files, u.temp)
  }

  predicate Mine(us: seq<Upload>, a: string, m: Move) {
    match m
    case Act(i) => i < |us| && us[i].instance == a
    case Other(call) => call.instance == a
  }

  /** Every instance is a, or cannot share files with it. */
  predicate AllApart(us: seq<Upload>, a: string, ms: seq<Move>) {
    && (forall i :: 0 <= i < |us| ==> us[i].instance == a || IS.Apart(us[i].instance, a))
    && forall k :: 0 <= k < |ms| && ms[k].Other? ==> ms[k].call.instance == a || IS.Apart(ms[k].call.instance, a)
  }

  /** The moves of one instance, in order. */
  function Project(us: seq<Upload>, a: string, ms: seq<Move>): seq<Move> {
    if ms == [] then [] else (if Mine(us, a, ms[0]) then [ms[0]] else []) + Project(us, a, ms[1..])
  }

  /** What takes effect for one instance, in order. */
  function EffectsOf(a: string, order: seq<Effect>): seq<Effect> {
    if order == [] then []
    else (if order[0].call.instance == a then [order[0]] else []) + EffectsOf(a, order[1..])
  }

  lemma OwnedTemp(files: Files, a: string, temp: string, content: seq<byte>)
    requires ValidInstance(a) && HasPrefix(temp, IS.TEMP)
    ensures IS.Owned(files[temp := content], Prefix(a)) == IS.Owned(files, Prefix(a))
    ensures IS.Owned(files - {temp}, Prefix(a)) == IS.Owned(files, Prefix(a))
  {
    var own, put, del := IS.Owned(files, Prefix(a)), IS.Owned(files[temp := content], Prefix(a)),
                         IS.Owned(files - {temp}, Prefix(a));
    forall n: string
      ensures (n in put <==> n in own) && (n in put ==> put[n] == own[n])
      ensures (n in del <==> n in own) && (n in del ==> del[n] == own[n])
    {
      NotTemp(a, n, temp);
      IS.OwnedAt(files, Prefix(a), n);
      IS.OwnedAt(files[temp := content], Prefix(a), n);
      IS.OwnedAt(files - {temp}, Prefix(a), n);
    }
  }

  lemma OwnedElsewhere(files: Files, a: string, b: string, name: string, content: seq<byte>)
    requires ValidInstance(a) && ValidInstance(b) && IS.Apart(b, a)
    ensures IS.Owned(files[Prefix(b) + name := content], Prefix(a)) == IS.Owned(files, Prefix(a))
  {
    var own, put := IS.Owned(files, Prefix(a)), IS.Owned(files[Prefix(b) + name := content], Prefix(a));
    forall n: string
      ensures (n in put <==> n in own) && (n in put ==> put[n] == own[n])
    {
      IS.DisjointFiles(b, a, name, n);
      IS.OwnedAt(files, Prefix(a), n);
      IS.OwnedAt(files[Prefix(b) + name := content], Prefix(a), n);
    }
  }

  lemma FinishOwned(files: Files, u: Upload)
    requires ValidInstance(u.instance) && HasPrefix(u.temp, IS.TEMP)
    ensures var (own, a) := (IS.Owned(files, Prefix(u.instance)), Prefix(u.instance));
            IS.Owned(Finish(files, u).0, a) == if u.ok then own[u.name := Held(files, u.temp)] else own
  {
    OwnedTemp(files, u.instance, u.temp, []);
    IS.OwnedAfterSave(files - {u.temp}, Prefix(u.instance), u.name, Held(files, u.temp));
  }

  lemma FinishElsewhere(files: Files, a: string, u: Upload)
    requires ValidInstance(a) && ValidInstance(u.instance) && HasPrefix(u.temp, IS.TEMP) && IS.Apart(u.instance, a)
    ensures IS.Owned(Finish(files, u).0, Prefix(a)) == IS.Owned(files, Prefix(a))
  {
    OwnedTemp(files, a, u.temp, []);
    OwnedElsewhere(files - {u.temp}, a, u.instance, u.name, Held(files, u.temp));
  }

  /** Before its end an upload touches its temporary file alone. */
  lemma CopyOwned(files: Files, a: string, u: Upload, p: Phase)
    requires ValidInstance(a) && HasPrefix(u.temp, IS.TEMP) && !(p.Copying? && p.k >= |u.chunks|)
    ensures IS.Owned(Next(files, u, p).0, Prefix(a)) == IS.Owned(files, Prefix(a))
  {
    if p.Copying? {
      OwnedTemp(files, a, u.temp, Held(files, u.temp) + u.chunks[p.k]);
    } else {
      OwnedTemp(files, a, u.temp, []);
    }
  }

  /** What a call of one's own upload does to what one owns depends on that and its temporary file. */
  lemma NextOwned(files: Files, u: Upload, p: Phase)
    requires ValidInstance(u.instance) && HasPrefix(u.temp, IS.TEMP)
    ensures var (own, a) := (IS.Owned(files, Prefix(u.instance)), Prefix(u.instance));
            IS.Owned(Next(files, u, p).0, a)
            == if p.Copying? && p.k >= |u.chunks| && u.ok then own[u.name := Held(files, u.temp)] else own
  {
    if p.Copying? && p.k >= |u.chunks| {
      FinishOwned(files, u);
    } else {
      CopyOwned(files, u.instance, u, p);
    }
  }

  lemma NextElsewhere(files: Files, a: string, u: Upload, p: Phase)
    requires ValidInstance(a) && ValidInstance(u.instance) && HasPrefix(u.temp, IS.TEMP) && IS.Apart(u.instance, a)
    ensures IS.Owned(Next(files, u, p).0, Prefix(a)) == IS.Owned(files, Prefix(a))
  {
    if p.Copying? && p.k >= |u.chunks| {
      FinishElsewhere(files, a, u);
    } else {
      CopyOwned(files, a, u, p);
    }
  }

  lemma HeldStays(files: Files, u: Upload, p: Phase, temp: string)
    requires ValidInstance(u.instance) && HasPrefix(temp, IS.TEMP) && temp != u.temp
    ensures Held(Next(files, u, p).0, temp) == Held(files, temp)
  {
    NextLeaves(files, u, p, temp);
  }

  /** The same upload in two directories the same to its instance takes the same step. */
  lemma NextSame(f: Files, g: Files, u: Upload, p: Phase)
    requires ValidInstance(u.instance) && HasPrefix(u.temp, IS.TEMP)
    requires IS.Owned(f, Prefix(u.instance)) == IS.Owned(g, Prefix(u.instance)) && Held(f, u.temp) == Held(g, u.temp)
    ensures Next(f, u, p).1 == Next(g, u, p).1 && UploadEffect(f, u, p) == UploadEffect(g, u, p)
    ensures IS.Owned(Next(f, u, p).0, Prefix(u.instance)) == IS.Owned(Next(g, u, p).0, Prefix(u.instance))
    ensures Held(Next(f, u, p).0, u.temp) == Held(Next(g, u, p).0, u.temp)
  {
    IS.OwnedAt(f, Prefix(u.instance), u.name);
    IS.OwnedAt(g, Prefix(u.instance), u.name);
    NextOwned(f, u, p);
    NextOwned(g, u, p);
    NotTemp(u.instance, u.name, u.temp);
  }

  lemma ActSame(us: seq<Upload>, a: string, s: State, t: State, i: nat)
    requires Fair(us) && SameTo(us, a, s, t) && i < |us| && us[i].instance == a
    ensures SameTo(us, a, Step(us, s, Act(i)), Step(us, t, Act(i)))
    ensures EffectOf(us, s, Act(i)) == EffectOf(us, t, Act(i))
  {
    assert SameUpload(us[i], s, t, i);
    NextSame(s.files, t.files, us[i], s.phases[i]);
    forall j | 0 <= j < |us| && us[j].instance == a
      ensures SameUpload(us[j], Step(us, s, Act(i)), Step(us, t, Act(i)), j)
    {
      assert SameUpload(us[j], s, t, j);
      if j != i {
        HeldStays(s.files, us[i], s.phases[i], us[j].temp);
        HeldStays(t.files, us[i], t.phases[i], us[j].temp);
      }
    }
  }

  lemma ActElsewhere(us: seq<Upload>, a: string, s: State, t: State, i: nat)
    requires Fair(us) && ValidInstance(a) && SameTo(us, a, s, t)
    requires i < |us| ==> us[i].instance != a && IS.Apart(us[i].instance, a)
    ensures SameTo(us, a, Step(us, s, Act(i)), t)
  {
    if i < |us| {
      NextElsewhere(s.files, a, us[i], s.phases[i]);
      forall j | 0 <= j < |us| && us[j].instance == a
        ensures SameUpload(us[j], Step(us, s, Act(i)), t, j)
      {
        assert SameUpload(us[j], s, t, j);
        HeldStays(s.files, us[i], s.phases[i], us[j].temp);
      }
    }
  }

  lemma OtherSame(us: seq<Upload>, a: string, s: State, t: State, call: IS.Call)
    requires Fair(us) && SameTo(us, a, s, t) && ValidInstance(a) && call.instance == a && !call.op.Save?
    ensures SameTo(us, a, Step(us, s, Other(call)), Step(us, t, Other(call)))
    ensures EffectOf(us, s, Other(call)) == EffectOf(us, t, Other(call))
  {
    IS.ExecIsPrivate(s.files, a, call.op);
    IS.ExecIsPrivate(t.files, a, call.op);
    forall j | 0 <= j < |us| && us[j].instance == a
      ensures SameUpload(us[j], Step(us, s, Other(call)), Step(us, t, Other(call)), j)
    {
      assert SameUpload(us[j], s, t, j);
      OtherLeaves(s.files, call, us[j].temp);
      OtherLeaves(t.files, call, us[j].temp);
    }
  }

  lemma OtherElsewhere(us: seq<Upload>, a: string, s: State, t: State, call: IS.Call)
    requires Fair(us) && SameTo(us, a, s, t) && ValidInstance(a) && ValidInstance(call.instance)
    requires IS.Apart(call.instance, a) && !call.op.Save?
    ensures SameTo(us, a, Step(us, s, Other(call)), t)
  {
    IS.ExecLeavesOthers(s.files, call.instance, a, call.op);
    forall j | 0 <= j < |us| && us[j].instance == a
      ensures SameUpload(us[j], Step(us, s, Other(call)), t, j)
    {
      assert SameUpload(us[j], s, t, j);
      OtherLeaves(s.files, call, us[j].temp);
    }
  }

  lemma MineSame(us: seq<Upload>, a: string, s: State, t: State, m: Move)
    requires Fair(us) && ValidInstance(a) && SameTo(us, a, s, t) && Allowed(m) && Mine(us, a, m)
    ensures SameTo(us, a, Step(us, s, m), Step(us, t, m)) && EffectOf(us, s, m) == EffectOf(us, t, m)
    ensures EffectOf(us, s, m).Some? ==> EffectOf(us, s, m).value.call.instance == a
  {
    match m
    case Act(i) => ActSame(us, a, s, t, i);
    case Other(call) => OtherSame(us, a, s, t, call);
  }

  lemma TheirsElsewhere(us: seq<Upload>, a: string, s: State, t: State, m: Move)
    requires Fair(us) && ValidInstance(a) && SameTo(us, a, s, t) && Allowed(m) && !Mine(us, a, m)
    requires AllApart(us, a, [m])
    ensures SameTo(us, a, Step(us, s, m), t)
    ensures EffectOf(us, s, m).Some? ==> EffectOf(us, s, m).value.call.instance != a
  {
    match m
    case Act(i) => ActElsewhere(us, a, s, t, i);
    case Other(call) =>
      assert [m][0] == m;
      OtherElsewhere(us, a, s, t, call);
  }

  lemma EffectsCons(a: string, e: Effect, rest: seq<Effect>)
    ensures EffectsOf(a, [e] + rest) == (if e.call.instance == a then [e] else []) + EffectsOf(a, rest)
  {
    assert ([e] + rest)[1..] == rest;
  }

  lemma OrderCons(us: seq<Upload>, s: State, m: Move, rest: seq<Move>)
    ensures Run(us, s, [m] + rest) == Run(us, Step(us, s, m), rest)
    ensures Order(us, s, [m] + rest)
            == (if EffectOf(us, s, m).Some? then [EffectOf(us, s, m).value] else []) + Order(us, Step(us, s, m), rest)
  {
    assert ([m] + rest)[1..] == rest;
  }

  /**
   In any interleaving of the calls of instances that cannot share files with it, an instance's uploads, deletes and
   listings take the course, have the results and leave the files that its own calls would by themselves.
   */
  lemma {:induction false} UploadsRunAlone(us: seq<Upload>, a: string, s: State, t: State, ms: seq<Move>)
    requires Fair(us) && ValidInstance(a) && SameTo(us, a, s, t) && AllAllowed(ms) && AllApart(us, a, ms)
    ensures SameTo(us, a, Run(us, s, ms), Run(us, t, Project(us, a, ms)))
    ensures EffectsOf(a, Order(us, s, ms)) == EffectsOf(a, Order(us, t, Project(us, a, ms)))
    decreases |ms|
  {
    if ms != [] {
      var m, rest := ms[0], ms[1..];
      assert ms == [m] + rest;
      var s' := Step(us, s, m);
      OrderCons(us, s, m, rest);
      if EffectOf(us, s, m).Some? {
        EffectsCons(a, EffectOf(us, s, m).value, Order(us, s', rest));
      }
      if Mine(us, a, m) {
        var t' := Step(us, t, m);
        MineSame(us, a, s, t, m);
        UploadsRunAlone(us, a, s', t', rest);
        OrderCons(us, t, m, Project(us, a, rest));
        if EffectOf(us, t, m).Some? {
          EffectsCons(a, EffectOf(us, t, m).value, Order(us, t', Project(us, a, rest)));
        }
      } else {
        TheirsElsewhere(us, a, s, t, m);
        UploadsRunAlone(us, a, s', t, rest);
        assert Project(us, a, ms) == [] + Project(us, a, rest) == Project(us, a, rest);
      }
    }
  }

  /** Every upload is by one of two instances, and so is everything else that is done. */
  predicate Among(us: seq<Upload>, a: string, b: string, ms: seq<Move>) {
    && (forall i :: 0 <= i < |us| ==> us[i].instance == a || us[i].instance == b)
    && forall k :: 0 <= k < |ms| && ms[k].Other? ==> ms[k].call.instance == a || ms[k].call.instance == b
  }

  /** Two instances with distinct valid names are independent in every interleaving of calls exactly when neither name
      is the other plus a dash. */
  lemma UploadsAloneExactly(a: string, b: string)
    requires ValidInstance(a) && ValidInstance(b) && a != b
    ensures (forall us: seq<Upload>, s: State, ms: seq<Move> ::
               Fair(us) && |s.phases| == |us| && AllAllowed(ms) && Among(us, a, b, ms)
               ==> SameTo(us, a, Run(us, s, ms), Run(us, s, Project(us, a, ms))))
            <==> IS.Apart(a, b)
  {
    if IS.Apart(a, b) {
      forall us: seq<Upload>, s: State, ms: seq<Move> |
        Fair(us) && |s.phases| == |us| && AllAllowed(ms) && Among(us, a, b, ms)
        ensures SameTo(us, a, Run(us, s, ms), Run(us, s, Project(us, a, ms)))
      {
        UploadsRunAlone(us, a, s, s, ms);
      }
    } else {
      var us, s, ms := NeighbourUploads(a, b);
    }
  }

  const ACT: Move := Act(0)

  lemma EmptyUpload(u: Upload) returns (t: State)
    requires ValidInstance(u.instance) && HasPrefix(u.temp, IS.TEMP)
    requires PlainName(u.name) && u.ok && u.overwrite && u.chunks == []
    ensures t == Run([u], State(map[], [Starting]), [ACT, ACT, ACT])
    ensures t.files == map[FileOf(u) := []] && |t.phases| == 1
  {
    var s0 := State(map[], [Starting]);
    var s1, s2 := State(map[], [Creating]), State(map[u.temp := []], [Copying(0)]);
    assert Step([u], s0, ACT) == s1;
    assert Step([u], s1, ACT) == s2;
    t := Step([u], s2, ACT);
    OrderCons([u], s0, ACT, [ACT, ACT]);
    OrderCons([u], s1, ACT, [ACT]);
    OrderCons([u], s2, ACT, []);
    assert [ACT] + [ACT, ACT] == [ACT, ACT, ACT] && [ACT] + [ACT] == [ACT, ACT] && [ACT] + [] == [ACT];
    assert t.files == map[FileOf(u) := []];
  }

  /** A neighbour's upload under a shared name. */
  lemma NeighbourUploads(a: string, b: string) returns (us: seq<Upload>, s: State, ms: seq<Move>)
    requires ValidInstance(a) && ValidInstance(b) && a != b && DashNeighbours(a, b)
    ensures Fair(us) && |s.phases| == |us| && AllAllowed(ms) && Among(us, a, b, ms)
    ensures !SameTo(us, a, Run(us, s, ms), Run(us, s, Project(us, a, ms)))
  {
    var n, m := SharedNames(a, b);
    var u := Upload(b, m, [], true, true, IS.TEMP);
    us, s, ms := [u], State(map[], [Starting]), [ACT, ACT, ACT];
    var t := EmptyUpload(u);
    NothingProjected(us, a);
    IS.OwnedAt(t.files, Prefix(a), n);
    IS.OwnedAt(map[], Prefix(a), n);
  }

  /** Two names under which neighbours have the same file. */
  lemma SharedNames(a: string, b: string) returns (n: string, m: string)
    requires ValidInstance(a) && ValidInstance(b) && DashNeighbours(a, b)
    ensures PlainName(n) && PlainName(m) && Prefix(a) + n == Prefix(b) + m
  {
    IS.PlainX();
    if b == a + "-" {
      n, m := "-x", "x";
      IS.SharedFile(a, "x");
    } else {
      n, m := "x", "-x";
      IS.SharedFile(b, "x");
    }
  }

  lemma NothingProjected(us: seq<Upload>, a: string)
    requires |us| == 1 && us[0].instance != a
    ensures Project(us, a, [ACT, ACT, ACT]) == []
  {
    SkipOne(us, a, []);
    SkipOne(us, a, [ACT]);
    SkipOne(us, a, [ACT, ACT]);
    assert [ACT] + [] == [ACT] && [ACT] + [ACT] == [ACT, ACT] && [ACT] + [ACT, ACT] == [ACT, ACT, ACT];
  }

  lemma SkipOne(us: seq<Upload>, a: string, rest: seq<Move>)
    requires |us| == 1 && us[0].instance != a
    ensures Project(us, a, [ACT] + rest) == Project(us, a, rest)
  {
    assert ([ACT] + rest)[1..] == rest;
  }

  // ---- One upload by itself -----------------------------------------------------------------------------------------

  /** n calls of one upload. */
  function Calls(n: nat): seq<Move> {
    seq(n, _ => ACT)
  }

  lemma OneCall(u: Upload, s: State, n: nat)
    requires n > 0
    ensures Run([u], s, Calls(n)) == Run([u], Step([u], s, ACT), Calls(n - 1))
  {
    assert Calls(n) == [ACT] + Calls(n - 1);
    OrderCons([u], s, ACT, Calls(n - 1));
  }

  lemma {:induction false} CopiesAlone(u: Upload, was: Files, k: nat)
    requires ValidInstance(u.instance) && HasPrefix(u.temp, IS.TEMP) && u.temp !in was && k <= |u.chunks|
    requires PlainName(u.name)
    ensures var s := State(was[u.temp := Flatten(u.chunks[..k])], [Copying(k)]);
            Run([u], s, Calls(|u.chunks| - k + 1))
            == (if u.ok then State(was[FileOf(u) := Flatten(u.chunks)], [Done(IS.Saved(u.name, |Flatten(u.chunks)|))])
                else State(was, [Done(IS.ReadFailed)]))
    decreases |u.chunks| - k
  {
    var s := State(was[u.temp := Flatten(u.chunks[..k])], [Copying(k)]);
    OneCall(u, s, |u.chunks| - k + 1);
    if k < |u.chunks| {
      OneMoreChunk(u, k);
      CopiesAlone(u, was, k + 1);
      assert Step([u], s, ACT) == State(was[u.temp := Flatten(u.chunks[..k + 1])], [Copying(k + 1)]);
    } else {
      NotTemp(u.instance, u.name, u.temp);
      assert u.chunks[..k] == u.chunks;
      assert s.files - {u.temp} == was;
    }
  }

  lemma CreatesFile(u: Upload, files: Files)
    ensures Step([u], State(files, [Creating]), ACT) == State(files[u.temp := Flatten(u.chunks[..0])], [Copying(0)])
  {
    var none := Flatten(u.chunks[..0]);
    assert u.chunks[..0] == [] && none == [];
    assert [Creating][0 := Copying(0)] == [Copying(0)];
  }

  /** An upload whose calls nobody interrupts is the store's save: same files, same result. */
  lemma UninterruptedIsSave(u: Upload, files: Files)
    requires ValidInstance(u.instance) && HasPrefix(u.temp, IS.TEMP) && u.temp !in files
    ensures var t := Run([u], State(files, [Starting]), Calls(|u.chunks| + 3));
            && |t.phases| == 1 && t.phases[0].Done?
            && (t.files, t.phases[0].result) == IS.Exec(files, Prefix(u.instance), CallOf(u).op)
  {
    var n := |u.chunks|;
    var s0 := State(files, [Starting]);
    SanitizeExactly(u.name);
    OneCall(u, s0, n + 3);
    var s1 := State(files, [Check(files, u)]);
    assert Step([u], s0, ACT) == s1;
    if Check(files, u).Done? {
      StaysDone(u, s1, n + 2);
    } else {
      OneCall(u, s1, n + 2);
      CreatesFile(u, files);
      CopiesAlone(u, files, 0);
    }
  }

  lemma {:induction false} StaysDone(u: Upload, s: State, n: nat)
    requires |s.phases| == 1 && s.phases[0].Done?
    ensures Run([u], s, Calls(n)) == s
    decreases n
  {
    if n > 0 {
      OneCall(u, s, n);
      assert Step([u], s, ACT) == s;
      StaysDone(u, s, n - 1);
    }
  }
}
