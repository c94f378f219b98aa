/**
 * The agent's identity files. Every file operation may fail or be the one at which the process crashes; a write
 * that does not finish may leave any part of its content in the temporary file.
 */
module IdentityStore {
  import opened Results
  import opened Text

  datatype Item = Cert | Key | Ca | Target

  datatype Path = Final(item: Item) | Tmp(item: Item)

  datatype File = File(content: string, mode: nat)

  /** `written` is how much of a write got through, if it got as far as opening the file. */
  datatype Fate = Works | Fails(written: Option<nat>) | Crashes(written: Option<nat>)

  /** What stands under the four final paths. */
  type Finals = map<Item, File>

  const KEY_MODE := 0x180      // rw-------
  const OTHER_MODE := 0x1A0    // rw-r-----
  const DEFAULT_MODE := 0x1A4  // rw-r--r--

  function ModeOf(item: Item): nat {
    if item == Key then KEY_MODE else OTHER_MODE
  }

  function FinalsOf(files: map<Path, File>): Finals {
    map i: Item | Final(i) in files :: files[Final(i)]
  }

  // ----- what one process meets -----

  /** The fates of a process's file operations, in order; whatever comes after the listed ones works. */
  type Plan = seq<Fate>

  function FateAt(plan: Plan, k: nat): Fate {
    if k < |plan| then plan[k] else Works
  }

  /** How many file operations a process has tried, and whether it is still up. */
  datatype Moment = Moment(used: nat, up: bool)

  const BOOT := Moment(0, true)

  /** The next operation works; after a crash nothing works any more. */
  predicate WorksAt(plan: Plan, m: Moment) {
    m.up && FateAt(plan, m.used).Works?
  }

  function Tried(plan: Plan, m: Moment): Moment {
    if m.up then Moment(m.used + 1, !FateAt(plan, m.used).Crashes?) else m
  }

  /** Nothing has gone wrong for good and nothing will go wrong. */
  ghost predicate Quiet(plan: Plan, m: Moment) {
    m.up && forall k :: m.used <= k ==> FateAt(plan, k).Works?
  }

  predicate ReadWorks(f: Finals, plan: Plan, m: Moment, item: Item) {
    WorksAt(plan, m) && item in f
  }

  /** All four operations of a `write_file` work: directory, temporary file, mode and rename. */
  predicate WriteWorks(plan: Plan, m: Moment) {
    && m.up
    && FateAt(plan, m.used).Works?
    && FateAt(plan, m.used + 1).Works?
    && FateAt(plan, m.used + 2).Works?
    && FateAt(plan, m.used + 3).Works?
  }

  function AfterWrite(m: Moment): Moment {
    m.(used := m.used + 4)
  }

  function Written(f: Finals, item: Item, content: string): Finals {
    f[item := File(content, ModeOf(item))]
  }

  /** The file system as far as one process uses it, with the fates of that process's operations. */
  class Disk {
    var files: map<Path, File>
    var moment: Moment
    const plan: Plan

    constructor (files: map<Path, File>, plan: Plan)
      ensures this.files == files && this.plan == plan && moment == BOOT
    {
      this.files, this.plan := files, plan;
      moment := BOOT;
    }

    function Visible(): Finals
      reads this
    {
      FinalsOf(files)
    }

    method Take() returns (fate: Fate)
      modifies this`moment
      ensures moment == Tried(plan, old(moment))
      ensures fate == if old(moment).up then FateAt(plan, old(moment).used) else Crashes(None)
    {
      if !moment.up {
        return Crashes(None);
      }
      fate := FateAt(plan, moment.used);
      moment := Moment(moment.used + 1, !fate.Crashes?);
    }

    method Read(item: Item) returns (r: Result<string>)
      modifies this`moment
      ensures moment == Tried(plan, old(moment))
      ensures r.Ok? <==> ReadWorks(Visible(), plan, old(moment), item)
      ensures r.Ok? ==> r.value == Visible()[item].content
    {
      var fate := Take();
      if !fate.Works? || Final(item) !in files {
        return Err("read");
      }
      return Ok(files[Final(item)].content);
    }

    method CreateDirectory() returns (ok: bool)
      modifies this`moment
      ensures ok == WorksAt(plan, old(moment)) && moment == Tried(plan, old(moment))
    {
      var fate := Take();
      ok := fate.Works?;
    }

    /** A new file gets the default mode; an existing one keeps its own. */
    method WriteTmp(item: Item, content: string) returns (ok: bool)
      modifies this
      ensures Visible() == old(Visible())
      ensures ok == WorksAt(plan, old(moment)) && moment == Tried(plan, old(moment))
      ensures ok ==> Tmp(item) in files && files[Tmp(item)].content == content
    {
      var fate := Take();
      var written := match fate case Works => Some(|content|) case Fails(w) => w case Crashes(w) => w;
      if written.Some? {
        var n := if written.value < |content| then written.value else |content|;
        var mode := if Tmp(item) in files then files[Tmp(item)].mode else DEFAULT_MODE;
        files := files[Tmp(item) := File(content[..n], mode)];
        assert content[..|content|] == content;
      }
      assert Visible() == old(Visible());
      ok := fate.Works?;
    }

    method SetTmpMode(item: Item, mode: nat) returns (ok: bool)
      requires Tmp(item) in files
      modifies this
      ensures Visible() == old(Visible())
      ensures ok == WorksAt(plan, old(moment)) && moment == Tried(plan, old(moment))
      ensures files == if ok then old(files)[Tmp(item) := File(old(files)[Tmp(item)].content, mode)] else old(files)
    {
      var fate := Take();
      if fate.Works? {
        files := files[Tmp(item) := files[Tmp(item)].(mode := mode)];
      }
      assert Visible() == old(Visible());
      ok := fate.Works?;
    }

    method RenameTmp(item: Item) returns (ok: bool)
      requires Tmp(item) in files
      modifies this
      ensures ok == WorksAt(plan, old(moment)) && moment == Tried(plan, old(moment))
      ensures Visible() == if ok then old(Visible())[item := old(files)[Tmp(item)]] else old(Visible())
    {
      var fate := Take();
      if fate.Works? {
        files := files[Final(item) := files[Tmp(item)]] - {Tmp(item)};
        assert Visible() == old(Visible())[item := old(files)[Tmp(item)]];
      }
      ok := fate.Works?;
    }
  }

  /** Certificates and keys, as far as the agent and the control plane agree on them. */
  datatype Pki = Pki(binds: (string, string) -> bool, expiry: string -> Option<int>)

  datatype Identity = Identity(cert: string, key: string, ca: string, target: Option<string>)

  ghost predicate Usable(pki: Pki, f: Finals, now: int) {
    && Cert in f && Key in f && Ca in f
    && f[Cert].content != "" && f[Key].content != "" && f[Ca].content != ""
    && pki.expiry(f[Cert].content).Some? && pki.expiry(f[Cert].content).value > now
  }

  /** The three reads without which nothing is loaded, one after the other, all work. */
  predicate Loads(f: Finals, plan: Plan, m: Moment) {
    && ReadWorks(f, plan, m, Cert)
    && ReadWorks(f, plan, Tried(plan, m), Key)
    && ReadWorks(f, plan, Tried(plan, Tried(plan, m)), Ca)
  }

  /** Loading stops at the first of the three that does not work; the target is read last. */
  function AfterLoad(f: Finals, plan: Plan, m: Moment): Moment {
    var cert := Tried(plan, m);
    var key := Tried(plan, cert);
    var ca := Tried(plan, key);
    if !ReadWorks(f, plan, m, Cert) then cert
    else if !ReadWorks(f, plan, cert, Key) then key
    else if !ReadWorks(f, plan, key, Ca) then ca
    else Tried(plan, ca)
  }

  /** Files after the three writes of an enrollment, which stops at the first that does not work. */
  function AfterSave(f: Finals, plan: Plan, m: Moment, cert: string, ca: string, target: string): Finals {
    if !WriteWorks(plan, m) then f
    else if !WriteWorks(plan, AfterWrite(m)) then Written(f, Cert, cert)
    else if !WriteWorks(plan, AfterWrite(AfterWrite(m))) || Trim(target) == "" then
      Written(Written(f, Cert, cert), Ca, ca)
    else Saved(f, cert, ca, target)
  }

  function Saved(f: Finals, cert: string, ca: string, target: string): Finals {
    Written(Written(Written(f, Cert, cert), Ca, ca), Target, Trim(target))
  }

  predicate HasContent(f: Finals, item: Item, content: string) {
    item in f && f[item].content == content
  }

  class IdentityStore {
    const disk: Disk

    constructor (disk: Disk)
      ensures this.disk == disk
    {
      this.disk := disk;
    }

    /**
     * `write_file`: whatever fails and wherever the process crashes, each final path holds its whole old or its
     * whole new content, and a new file is in place under its own restricted mode exactly when the call succeeds.
     */
    method WriteFile(item: Item, content: string) returns (r: Result<()>)
      modifies disk
      ensures r.Ok? <==> WriteWorks(disk.plan, old(disk.moment))
      ensures disk.Visible() == if r.Ok? then Written(old(disk.Visible()), item, content) else old(disk.Visible())
      ensures r.Ok? ==>
        disk.Visible() == old(disk.Visible())[item := File(content, if item == Key then 0x180 else 0x1A0)]
      ensures r.Ok? ==> disk.moment == AfterWrite(old(disk.moment))
    {
      var ok := disk.CreateDirectory();
      if !ok {
        return Err("create identity directory");
      }
      ok := disk.WriteTmp(item, content);
      if !ok {
        return Err("write identity file");
      }
      ok := disk.SetTmpMode(item, ModeOf(item));
      if !ok {
        return Err("set identity file permissions");
      }
      ok := disk.RenameTmp(item);
      if !ok {
        return Err("replace identity file");
      }
      return Ok(());
    }

    /**
     * `ensure_private_key`: a key that can be read and is not empty is returned and kept. In every other case, a
     * failed read included, a generated key takes its place, if the process can still write it.
     */
    method EnsurePrivateKey(generated: Result<string>) returns (r: Result<string>)
      modifies disk
      ensures var f, m, next := old(disk.Visible()), old(disk.moment), Tried(disk.plan, old(disk.moment));
              if ReadWorks(f, disk.plan, m, Key) && f[Key].content != ""
              then r == Ok(f[Key].content) && disk.Visible() == f && disk.moment == next
              else if generated.Ok? && WriteWorks(disk.plan, next)
              then r == generated && disk.Visible() == Written(f, Key, r.value) && disk.moment == AfterWrite(next)
              else r.Err? && disk.Visible() == f
      ensures r.Ok? ==>
        || (HasContent(old(disk.Visible()), Key, r.value) && r.value != "" && disk.Visible() == old(disk.Visible()))
        || (r == generated && disk.Visible() == old(disk.Visible())[Key := File(r.value, 0x180)])
    {
      var existing := disk.Read(Key);
      if existing.Ok? && existing.value != "" {
        return existing;
      }
      if generated.Err? {
        return generated;
      }
      var written := WriteFile(Key, generated.value);
      if written.Err? {
        return Err(written.message);
      }
      return generated;
    }

    /** The files as they stand; only the target may be missing, blank or unreadable. */
    method LoadIdentity() returns (r: Result<Identity>)
      modifies disk`moment
      ensures disk.moment == AfterLoad(disk.Visible(), disk.plan, old(disk.moment))
      ensures r.Ok? <==> Loads(disk.Visible(), disk.plan, old(disk.moment))
      ensures r.Ok? ==>
        var f := disk.Visible();
        && r.value.cert == f[Cert].content && r.value.key == f[Key].content && r.value.ca == f[Ca].content
        && r.value.target == if Target in f && FateAt(disk.plan, old(disk.moment).used + 3).Works?
                                && Trim(f[Target].content) != ""
                             then Some(Trim(f[Target].content)) else None
    {
      var cert := disk.Read(Cert);
      if cert.Err? {
        return Err("read client cert");
      }
      var key := disk.Read(Key);
      if key.Err? {
        return Err("read client key");
      }
      var ca := disk.Read(Ca);
      if ca.Err? {
        return Err("read ca bundle");
      }
      var target := disk.Read(Target);
      var trimmed := if target.Ok? then Trim(target.value) else "";
      return Ok(Identity(cert.value, key.value, ca.value, if trimmed == "" then None else Some(trimmed)));
    }

    /** Usable: all three files can be read and are not empty, and the certificate parses and expires later than now. */
    method HasUsableClientCertificate(pki: Pki, now: int) returns (usable: bool)
      modifies disk`moment
      ensures disk.moment == AfterLoad(disk.Visible(), disk.plan, old(disk.moment))
      ensures usable <==> Loads(disk.Visible(), disk.plan, old(disk.moment)) && Usable(pki, disk.Visible(), now)
      ensures usable <==>
        var f := disk.Visible();
        && Loads(f, disk.plan, old(disk.moment))
        && Cert in f && f[Cert].content != "" && Key in f && f[Key].content != "" && Ca in f && f[Ca].content != ""
        && pki.expiry(f[Cert].content).Some? && pki.expiry(f[Cert].content).value > now
    {
      var state := LoadIdentity();
      if state.Err? || state.value.cert == "" || state.value.key == "" || state.value.ca == "" {
        return false;
      }
      var expiry := pki.expiry(state.value.cert);
      return expiry.Some? && expiry.value > now;
    }

    /**
     * The three writes of an enrollment, in order: certificate, CA and trimmed target, each whole and under its mode.
     * A failure or crash leaves a prefix of them done. Nothing else changes.
     */
    method SaveIdentity(cert: string, ca: string, target: string) returns (r: Result<()>)
      modifies disk
      ensures disk.Visible() == AfterSave(old(disk.Visible()), disk.plan, old(disk.moment), cert, ca, target)
      ensures r.Ok? <==>
        var m := old(disk.moment);
        && WriteWorks(disk.plan, m) && WriteWorks(disk.plan, AfterWrite(m))
        && WriteWorks(disk.plan, AfterWrite(AfterWrite(m))) && Trim(target) != ""
      ensures r.Ok? ==> disk.moment == AfterWrite(AfterWrite(AfterWrite(old(disk.moment))))
      ensures r.Ok? ==>
        disk.Visible() == old(disk.Visible())[Cert := File(cert, 0x1A0)][Ca := File(ca, 0x1A0)]
                                             [Target := File(Trim(target), 0x1A0)]
      ensures r.Err? ==>
        || disk.Visible() == old(disk.Visible())
        || disk.Visible() == old(disk.Visible())[Cert := File(cert, 0x1A0)]
        || disk.Visible() == old(disk.Visible())[Cert := File(cert, 0x1A0)][Ca := File(ca, 0x1A0)]
    {
      r := WriteFile(Cert, cert);
      if r.Err? {
        return;
      }
      r := WriteFile(Ca, ca);
      if r.Err? {
        return;
      }
      if Trim(target) == "" {
        return Err("runtime target addr must not be empty");
      }
      r := WriteFile(Target, Trim(target));
    }
  }
}
