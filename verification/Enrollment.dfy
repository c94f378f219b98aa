/** Enrollment over crashes: the control plane's reply is any value, the files are those of the identity store. */
module Enrollment {
  import opened IdentityStore
  import opened Results
  import opened Text

  datatype Reply = Reply(agentId: string, cert: string, ca: string, target: string)

  /**
   * What one attempt meets: the time, the bootstrap token, the key that would be generated, whether a request can
   * be made from a key, and the control plane's answer to a request for a key.
   */
  datatype Attempt = Attempt(
    now: int,
    token: string,
    generated: Result<string>,
    signs: string -> bool,
    reply: string -> Result<Reply>)

  /** The key an attempt works with, the files once it is in place, and the moment from which the attempt goes on. */
  datatype Keyed = Keyed(key: string, files: Finals, at: Moment)

  predicate HasKey(f: Finals) {
    Key in f && f[Key].content != ""
  }

  /** The key on disk if it can be read and is worth something, else a new one if it can be made and written. */
  function KeyFor(a: Attempt, f: Finals, plan: Plan, m: Moment): Option<Keyed> {
    var next := Tried(plan, m);
    if WorksAt(plan, m) && HasKey(f) then Some(Keyed(f[Key].content, f, next))
    else if a.generated.Ok? && WriteWorks(plan, next) then
      Some(Keyed(a.generated.value, Written(f, Key, a.generated.value), AfterWrite(next)))
    else None
  }

  /** The control plane gives a reply that the agent accepts. */
  predicate Accepted(a: Attempt, key: string) {
    a.signs(key) && a.reply(key).Ok? && Trim(a.reply(key).value.agentId) != "" && Trim(a.reply(key).value.target) != ""
  }

  function AfterReply(a: Attempt, keyed: Keyed, plan: Plan): Finals {
    if !Accepted(a, keyed.key) then keyed.files
    else
      var r := a.reply(keyed.key).value;
      AfterSave(keyed.files, plan, keyed.at, r.cert, r.ca, r.target)
  }

  /** The files that an enrollment leaves, however far it gets. */
  function AfterEnroll(a: Attempt, f: Finals, plan: Plan, m: Moment): Finals {
    if Trim(a.token) == "" then f
    else match KeyFor(a, f, plan, m)
      case None => f
      case Some(keyed) => AfterReply(a, keyed, plan)
  }

  /** The reply is accepted, stored in full and read back. */
  predicate Succeeds(a: Attempt, keyed: Keyed, plan: Plan) {
    var second := AfterWrite(keyed.at);
    var third := AfterWrite(second);
    && Accepted(a, keyed.key)
    && WriteWorks(plan, keyed.at) && WriteWorks(plan, second) && WriteWorks(plan, third)
    && Loads(AfterReply(a, keyed, plan), plan, AfterWrite(third))
  }

  predicate EnrollSucceeds(a: Attempt, f: Finals, plan: Plan, m: Moment) {
    var keyed := KeyFor(a, f, plan, m);
    Trim(a.token) != "" && keyed.Some? && Succeeds(a, keyed.value, plan)
  }

  ghost predicate OnDisk(identity: Identity, f: Finals) {
    && Cert in f && Key in f && Ca in f
    && identity.cert == f[Cert].content && identity.key == f[Key].content && identity.ca == f[Ca].content
  }

  /** The target of an identity is the one of a reply, or could not be read back. */
  ghost predicate TargetReadBack(identity: Identity, target: string, plan: Plan) {
    || identity.target == Some(Trim(target))
    || (identity.target == None && exists k :: 0 <= k < |plan| && !plan[k].Works?)
  }

  /**
   * What a successful enrollment comes to: there was a token; the key is the one on disk or a generated one; the
   * control plane's reply for it names an agent and a target; certificate, CA and target of that reply are on disk,
   * each under its mode, and make up the identity. Its target is missing only if it could not be read back.
   */
  ghost predicate Issued(a: Attempt, before: Finals, after: Finals, identity: Identity, plan: Plan) {
    && Trim(a.token) != ""
    && a.signs(identity.key) && a.reply(identity.key).Ok?
    && var reply := a.reply(identity.key).value;
       && Trim(reply.agentId) != "" && Trim(reply.target) != ""
       && identity.cert == reply.cert && identity.ca == reply.ca
       && TargetReadBack(identity, reply.target, plan)
       && Cert in after && Key in after && Ca in after && Target in after
       && after[Cert] == File(reply.cert, 0x1A0)
       && after[Ca] == File(reply.ca, 0x1A0)
       && after[Target] == File(Trim(reply.target), 0x1A0)
       && after[Key].content == identity.key
       && ((a.generated == Ok(identity.key) && after[Key] == File(identity.key, 0x180))
           || (Key in before && before[Key].content != "" && after[Key] == before[Key]))
  }

  lemma SuccessIsIssued(a: Attempt, f: Finals, plan: Plan, m: Moment, identity: Identity)
    requires EnrollSucceeds(a, f, plan, m) && OnDisk(identity, AfterEnroll(a, f, plan, m))
    requires TargetReadBack(identity, a.reply(KeyFor(a, f, plan, m).value.key).value.target, plan)
    ensures Issued(a, f, AfterEnroll(a, f, plan, m), identity, plan)
  {
    var keyed := KeyFor(a, f, plan, m).value;
    var reply := a.reply(keyed.key).value;
    assert AfterEnroll(a, f, plan, m) == Saved(keyed.files, reply.cert, reply.ca, reply.target);
    assert HasContent(keyed.files, Key, keyed.key);
  }

  /** From a reply to the stored and reloaded identity. */
  method PersistReply(store: IdentityStore, a: Attempt, ghost keyed: Keyed, key: string) returns (r: Result<Identity>)
    requires keyed == Keyed(key, store.disk.Visible(), store.disk.moment)
    modifies store.disk
    ensures store.disk.Visible() == AfterReply(a, keyed, store.disk.plan)
    ensures r.Ok? <==> Succeeds(a, keyed, store.disk.plan)
    ensures r.Ok? ==> OnDisk(r.value, store.disk.Visible())
    ensures r.Ok? ==> TargetReadBack(r.value, a.reply(key).value.target, store.disk.plan)
  {
    if !a.signs(key) {
      return Err("generate bootstrap csr");
    }
    var answer := a.reply(key);
    if answer.Err? {
      return Err("bootstrap enroll agent");
    }
    var reply := answer.value;
    if Trim(reply.agentId) == "" {
      return Err("bootstrap enrollment returned empty agent id");
    }
    if Trim(reply.target) == "" {
      return Err("bootstrap enrollment returned empty runtime target addr");
    }
    var saved := store.SaveIdentity(reply.cert, reply.ca, reply.target);
    if saved.Err? {
      return Err("persist bootstrap enrollment");
    }
    r := store.LoadIdentity();
    ghost var k := keyed.at.used + 15;
    assert r.Ok? && !FateAt(store.disk.plan, k).Works? ==> k < |store.disk.plan| && !store.disk.plan[k].Works?;
  }

  /** The enrollment exchange, in the order of the code. Without a token it touches no file. */
  method BootstrapEnroll(store: IdentityStore, a: Attempt) returns (r: Result<Identity>)
    modifies store.disk
    ensures store.disk.Visible() == AfterEnroll(a, old(store.disk.Visible()), store.disk.plan, old(store.disk.moment))
    ensures r.Ok? <==> EnrollSucceeds(a, old(store.disk.Visible()), store.disk.plan, old(store.disk.moment))
    ensures r.Ok? ==> OnDisk(r.value, store.disk.Visible())
    ensures r.Ok? ==> Issued(a, old(store.disk.Visible()), store.disk.Visible(), r.value, store.disk.plan)
  {
    if Trim(a.token) == "" {
      return Err("bootstrap token is required until the first enrollment succeeds");
    }
    ghost var f, m := store.disk.Visible(), store.disk.moment;
    ghost var keyed := KeyFor(a, store.disk.Visible(), store.disk.plan, store.disk.moment);
    var key := store.EnsurePrivateKey(a.generated);
    assert key.Ok? <==> keyed.Some?;
    if key.Err? {
      return Err(key.message);
    }
    assert keyed.value == Keyed(key.value, store.disk.Visible(), store.disk.moment);
    r := PersistReply(store, a, keyed.value, key.value);
    if r.Ok? {
      SuccessIsIssued(a, f, store.disk.plan, m, r.value);
    }
  }

  /** The identity on disk is found usable, so that nothing is written. */
  ghost predicate Served(pki: Pki, a: Attempt, f: Finals, plan: Plan, m: Moment) {
    Loads(f, plan, m) && Usable(pki, f, a.now)
  }

  /** The files after `ensure_identity`. */
  ghost function AfterEnsure(pki: Pki, a: Attempt, f: Finals, plan: Plan, m: Moment): Finals {
    if Served(pki, a, f, plan, m) then f else AfterEnroll(a, f, plan, AfterLoad(f, plan, m))
  }

  /** A usable identity on disk is loaded as it is; otherwise the agent enrolls. */
  method EnsureIdentity(store: IdentityStore, pki: Pki, a: Attempt) returns (r: Result<Identity>, enrolled: bool)
    modifies store.disk
    ensures enrolled <==> !Served(pki, a, old(store.disk.Visible()), store.disk.plan, old(store.disk.moment))
    ensures store.disk.Visible()
         == AfterEnsure(pki, a, old(store.disk.Visible()), store.disk.plan, old(store.disk.moment))
    ensures r.Ok? <==>
      var f, plan := old(store.disk.Visible()), store.disk.plan;
      var next := AfterLoad(f, plan, old(store.disk.moment));
      if enrolled then EnrollSucceeds(a, f, plan, next) else Loads(f, plan, next)
    ensures r.Ok? ==> OnDisk(r.value, store.disk.Visible())
    ensures r.Ok? && enrolled ==>
      Issued(a, old(store.disk.Visible()), store.disk.Visible(), r.value, store.disk.plan)
    ensures !enrolled ==> store.disk.Visible() == old(store.disk.Visible())
  {
    var usable := store.HasUsableClientCertificate(pki, a.now);
    if usable {
      r := store.LoadIdentity();
      return r, false;
    }
    r := BootstrapEnroll(store, a);
    return r, true;
  }

  /** What an enrollment needs when no file operation fails: a token, a key to ask for, and an acceptable answer. */
  predicate Enrollable(a: Attempt, f: Finals) {
    && Trim(a.token) != ""
    && (HasKey(f) || a.generated.Ok?)
    && Accepted(a, if HasKey(f) then f[Key].content else a.generated.value)
  }

  lemma QuietLoads(f: Finals, plan: Plan, m: Moment)
    requires Quiet(plan, m)
    ensures Loads(f, plan, m) <==> Cert in f && Key in f && Ca in f
    ensures Quiet(plan, AfterLoad(f, plan, m))
  {
  }

  lemma QuietReplySucceeds(a: Attempt, keyed: Keyed, plan: Plan)
    requires Quiet(plan, keyed.at) && Key in keyed.files
    ensures Succeeds(a, keyed, plan) <==> Accepted(a, keyed.key)
  {
    QuietLoads(AfterReply(a, keyed, plan), plan, AfterWrite(AfterWrite(AfterWrite(keyed.at))));
  }

  lemma QuietEnrollSucceeds(a: Attempt, f: Finals, plan: Plan, m: Moment)
    requires Quiet(plan, m)
    ensures EnrollSucceeds(a, f, plan, m) <==> Enrollable(a, f)
    ensures EnrollSucceeds(a, f, plan, m) <==>
      && Trim(a.token) != ""
      && ((Key in f && f[Key].content != "") || a.generated.Ok?)
      && var key := if Key in f && f[Key].content != "" then f[Key].content else a.generated.value;
         a.signs(key) && a.reply(key).Ok?
         && Trim(a.reply(key).value.agentId) != "" && Trim(a.reply(key).value.target) != ""
  {
    var keyed := KeyFor(a, f, plan, m);
    if keyed.Some? {
      QuietReplySucceeds(a, keyed.value, plan);
    }
  }

  // ----- certificate and key on disk -----

  /** A certificate on disk that parses is bound to the key on disk. */
  ghost predicate Matched(pki: Pki, f: Finals) {
    Parses(pki, f) ==> HasKey(f) && pki.binds(f[Cert].content, f[Key].content)
  }

  predicate Parses(pki: Pki, f: Finals) {
    Cert in f && pki.expiry(f[Cert].content).Some?
  }

  /** The control plane signs the key of the request, and generated keys are not empty. */
  ghost predicate Honest(pki: Pki, a: Attempt) {
    && (forall k :: a.reply(k).Ok? && pki.expiry(a.reply(k).value.cert).Some? ==> pki.binds(a.reply(k).value.cert, k))
    && (a.generated.Ok? ==> a.generated.value != "")
  }

  ghost predicate HasKeyFile(keyed: Keyed) {
    Key in keyed.files && keyed.files[Key].content == keyed.key
  }

  lemma ReplyKeepsMatch(pki: Pki, a: Attempt, keyed: Keyed, plan: Plan)
    requires Honest(pki, a) && HasKeyFile(keyed) && keyed.key != ""
    ensures Matched(pki, AfterReply(a, keyed, plan)) <==>
              Matched(pki, keyed.files) || (Accepted(a, keyed.key) && WriteWorks(plan, keyed.at))
  {
  }

  /** A new key takes the place of one that could not be read, while the certificate on disk stays the old one's. */
  predicate KeyIsLost(pki: Pki, a: Attempt, f: Finals, plan: Plan, m: Moment) {
    && Trim(a.token) != "" && HasKey(f) && Parses(pki, f)
    && !WorksAt(plan, m) && WriteWorks(plan, Tried(plan, m)) && a.generated.Ok?
    && !pki.binds(f[Cert].content, a.generated.value)
    && !(Accepted(a, a.generated.value) && WriteWorks(plan, AfterWrite(Tried(plan, m))))
  }

  /** For given faults, exactly this loses the match of certificate and key. */
  lemma MatchIsLostIff(pki: Pki, a: Attempt, f: Finals, plan: Plan)
    requires Honest(pki, a) && Matched(pki, f)
    ensures !Matched(pki, AfterEnsure(pki, a, f, plan, BOOT)) <==>
              !Served(pki, a, f, plan, BOOT) && KeyIsLost(pki, a, f, plan, AfterLoad(f, plan, BOOT))
  {
    var m := AfterLoad(f, plan, BOOT);
    if !Served(pki, a, f, plan, BOOT) && Trim(a.token) != "" {
      var keyed := KeyFor(a, f, plan, m);
      if keyed.Some? {
        ReplyKeepsMatch(pki, a, keyed.value, plan);
      }
    }
  }

  /** What is then left: the old files, but for the key. */
  lemma LostMatchLeaves(pki: Pki, a: Attempt, f: Finals, plan: Plan, m: Moment)
    requires KeyIsLost(pki, a, f, plan, m)
    ensures AfterEnroll(a, f, plan, m) == Written(f, Key, a.generated.value)
  {
  }

  /** The key cannot be read, not even at the second try; its replacement is written; then the process crashes. */
  const KEY_LOSING_PLAN: Plan := [Works, Fails(None), Fails(None), Works, Works, Works, Works, Crashes(None)]

  lemma KeyLosingPlanBites(pki: Pki, a: Attempt, f: Finals)
    requires Cert in f
    ensures var m := AfterLoad(f, KEY_LOSING_PLAN, BOOT);
            && !Loads(f, KEY_LOSING_PLAN, BOOT) && m == Moment(2, true) && !WorksAt(KEY_LOSING_PLAN, m)
            && WriteWorks(KEY_LOSING_PLAN, Tried(KEY_LOSING_PLAN, m))
            && !WriteWorks(KEY_LOSING_PLAN, AfterWrite(Tried(KEY_LOSING_PLAN, m)))
  {
  }

  /** What a caller can tell beforehand: no fault during this attempt can part certificate and key. */
  predicate KeyCannotBeLost(pki: Pki, a: Attempt, f: Finals) {
    || Trim(a.token) == ""
    || a.generated.Err?
    || !Parses(pki, f)
    || pki.binds(f[Cert].content, a.generated.value)
  }

  /**
   * An attempt keeps certificate and key matched whatever fails and wherever it crashes, exactly when there is no
   * token to enroll with, or no new key can be made, or the certificate on disk does not parse or fits the new key.
   * The code does not tell an unreadable key from a missing one.
   */
  lemma MatchIsKeptIff(pki: Pki, a: Attempt, f: Finals)
    requires Honest(pki, a) && Matched(pki, f)
    ensures (forall plan :: Matched(pki, AfterEnsure(pki, a, f, plan, BOOT))) <==> KeyCannotBeLost(pki, a, f)
  {
    if !KeyCannotBeLost(pki, a, f) {
      KeyLosingPlanBites(pki, a, f);
      MatchIsLostIff(pki, a, f, KEY_LOSING_PLAN);
    }
    forall plan | KeyCannotBeLost(pki, a, f) ensures Matched(pki, AfterEnsure(pki, a, f, plan, BOOT)) {
      MatchIsLostIff(pki, a, f, plan);
    }
  }

  /**
   * Wherever an enrollment stops, the files are the old ones, or those with a new key, or these with the first one,
   * two or all three of certificate, CA and target of the reply to the key on disk.
   */
  lemma EnrollLeavesPrefix(a: Attempt, f: Finals, plan: Plan, m: Moment) returns (key: string, mid: Finals)
    ensures var after := AfterEnroll(a, f, plan, m);
            after == f
            || (&& ((Key in f && f[Key].content == key != "" && mid == f)
                    || (a.generated == Ok(key) && mid == f[Key := File(key, 0x180)]))
                && (after == mid
                    || (a.reply(key).Ok?
                        && var r := a.reply(key).value;
                           || after == mid[Cert := File(r.cert, 0x1A0)]
                           || after == mid[Cert := File(r.cert, 0x1A0)][Ca := File(r.ca, 0x1A0)]
                           || after == mid[Cert := File(r.cert, 0x1A0)][Ca := File(r.ca, 0x1A0)]
                                          [Target := File(Trim(r.target), 0x1A0)])))
  {
    key, mid := "", f;
    var keyed := KeyFor(a, f, plan, m);
    if keyed.Some? {
      key, mid := keyed.value.key, keyed.value.files;
    }
  }

  /** One such attempt: a usable pair, a key file that cannot be read, a control plane that does not answer. */
  lemma UnreadableKeyBreaksMatch() returns (pki: Pki, a: Attempt, f: Finals)
    ensures Honest(pki, a) && Matched(pki, f) && Usable(pki, f, a.now)
    ensures var after := AfterEnsure(pki, a, f, KEY_LOSING_PLAN, BOOT);
            Usable(pki, after, a.now) && !Matched(pki, after)
  {
    pki := Pki((cert, key) => key == "old", cert => Some(1));
    a := Attempt(0, "token", Ok("new"), key => true, key => Err("unavailable"));
    f := map[Cert := File("c", OTHER_MODE), Key := File("old", KEY_MODE), Ca := File("ca", OTHER_MODE)];
    assert Tidy(a.token);
    KeyLosingPlanBites(pki, a, f);
    LostMatchLeaves(pki, a, f, KEY_LOSING_PLAN, Moment(2, true));
  }

  /**
   * The code run on a disk whose key cannot be read, for every attempt outside that condition: a new key replaces
   * the old one and the process stops before a new certificate is stored. If the identity had been usable, the
   * next start loads the old certificate and the new key as a usable pair.
   */
  method LoseMatch(pki: Pki, a: Attempt, files: map<Path, File>, next: Attempt)
    returns (after: Finals, loaded: Result<Identity>)
    requires Honest(pki, a) && Matched(pki, FinalsOf(files)) && !KeyCannotBeLost(pki, a, FinalsOf(files))
    ensures after == Written(FinalsOf(files), Key, a.generated.value) && !Matched(pki, after)
    ensures Usable(pki, FinalsOf(files), next.now) ==>
      loaded.Ok? && Usable(pki, after, next.now) && !pki.binds(loaded.value.cert, loaded.value.key)
  {
    var disk := new Disk(files, KEY_LOSING_PLAN);
    var store := new IdentityStore(disk);
    KeyLosingPlanBites(pki, a, FinalsOf(files));
    LostMatchLeaves(pki, a, FinalsOf(files), KEY_LOSING_PLAN, Moment(2, true));
    var r, enrolled := EnsureIdentity(store, pki, a);
    after := disk.Visible();
    var restarted := new Disk(disk.files, []);
    var reopened := new IdentityStore(restarted);
    QuietLoads(after, [], BOOT);
    QuietLoads(after, [], AfterLoad(after, [], BOOT));
    loaded, enrolled := EnsureIdentity(reopened, pki, next);
  }

  // ----- histories -----

  /** One start of the agent: what it meets, and the faults it suffers. */
  datatype Start = Start(attempt: Attempt, plan: Plan)

  /** A key worth keeping is there, the start enrolls, and the key cannot be read. */
  ghost predicate KeyMisread(pki: Pki, s: Start, f: Finals) {
    var m := AfterLoad(f, s.plan, BOOT);
    HasKey(f) && !Served(pki, s.attempt, f, s.plan, BOOT) && m.up && FateAt(s.plan, m.used).Fails?
  }

  /** A history of starts on one disk, from the first one on, in which the key can be read whenever it matters. */
  ghost predicate History(pki: Pki, starts: seq<Start>, disk: seq<Finals>) {
    && |disk| == |starts| + 1
    && disk[0] == map[]
    && forall i :: 0 <= i < |starts| ==>
         && Honest(pki, starts[i].attempt) && !KeyMisread(pki, starts[i], disk[i])
         && disk[i + 1] == AfterEnsure(pki, starts[i].attempt, disk[i], starts[i].plan, BOOT)
  }

  lemma ReplyKeepsKey(a: Attempt, keyed: Keyed, plan: Plan)
    requires Key in keyed.files
    ensures var after := AfterReply(a, keyed, plan); Key in after && after[Key] == keyed.files[Key]
  {
  }

  /** Only the write of a new key touches the key, and that is for a key that is worthless or cannot be read. */
  lemma EnrollKeepsReadKey(a: Attempt, f: Finals, plan: Plan, m: Moment)
    requires HasKey(f) && !(m.up && FateAt(plan, m.used).Fails?)
    ensures var after := AfterEnroll(a, f, plan, m); Key in after && after[Key] == f[Key]
  {
    if Trim(a.token) != "" && WorksAt(plan, m) {
      ReplyKeepsKey(a, Keyed(f[Key].content, f, Tried(plan, m)), plan);
    }
  }

  lemma ReadableKeyIsKept(pki: Pki, s: Start, f: Finals)
    requires Honest(pki, s.attempt) && Matched(pki, f) && !KeyMisread(pki, s, f)
    ensures var after := AfterEnsure(pki, s.attempt, f, s.plan, BOOT);
            Matched(pki, after) && (HasKey(f) ==> Key in after && after[Key] == f[Key])
  {
    MatchIsLostIff(pki, s.attempt, f, s.plan);
    if HasKey(f) && !Served(pki, s.attempt, f, s.plan, BOOT) {
      EnrollKeepsReadKey(s.attempt, f, s.plan, AfterLoad(f, s.plan, BOOT));
    }
  }

  /** Over any history with a readable key, certificate and key match at every moment, and a key is never replaced. */
  lemma {:induction false} HistoryKeepsMatch(pki: Pki, starts: seq<Start>, disk: seq<Finals>, i: nat, j: nat)
    requires History(pki, starts, disk) && i <= j < |disk|
    ensures Matched(pki, disk[j])
    ensures HasKey(disk[i]) ==> Key in disk[j] && disk[j][Key] == disk[i][Key]
    decreases j
  {
    if j == 0 {
    } else {
      HistoryKeepsMatch(pki, starts, disk, if i < j then i else j - 1, j - 1);
      ReadableKeyIsKept(pki, starts[j - 1], disk[j - 1]);
    }
  }

  /**
   * A quiet start after any such history: the pair on disk is loaded, with a certificate for its own key and a CA,
   * exactly when it is usable; otherwise the agent enrolls, and with success exactly when it is given what it
   * needs. Either way the identity it comes up with has a certificate for its own key.
   */
  method StartAfter(store: IdentityStore, pki: Pki, a: Attempt, ghost starts: seq<Start>, ghost disk: seq<Finals>)
    returns (r: Result<Identity>, enrolled: bool)
    requires History(pki, starts, disk) && store.disk.Visible() == disk[|starts|] && Honest(pki, a)
    requires store.disk.moment == BOOT && store.disk.plan == []
    modifies store.disk
    ensures enrolled <==> !Usable(pki, disk[|starts|], a.now)
    ensures !enrolled ==> r.Ok? && r.value.ca != "" && pki.binds(r.value.cert, r.value.key)
    ensures enrolled ==> (r.Ok? <==> Enrollable(a, disk[|starts|]))
    ensures r.Ok? && pki.expiry(r.value.cert).Some? ==> pki.binds(r.value.cert, r.value.key)
    ensures Matched(pki, store.disk.Visible())
  {
    HistoryKeepsMatch(pki, starts, disk, |starts|, |starts|);
    ReadableKeyIsKept(pki, Start(a, []), disk[|starts|]);
    QuietLoads(disk[|starts|], [], BOOT);
    var next := AfterLoad(disk[|starts|], [], BOOT);
    QuietLoads(disk[|starts|], [], next);
    QuietEnrollSucceeds(a, disk[|starts|], [], next);
    r, enrolled := EnsureIdentity(store, pki, a);
  }
}
