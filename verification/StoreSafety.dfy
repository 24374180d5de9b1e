/** What every plan of the local store keeps, at every point where it can be cut short. */
module StoreSafety {
  import opened Base
  import opened LocalStore

  /**
   True after every durable statement: rows have records, stored bytes hash to their
   name, and nothing a user can still see or restore has lost its bytes.
   */
  ghost predicate Core(s: Store) {
    && (forall id <- s.lan :: s.lan[id].obj in s.objects)
    && (forall h <- s.files :: Sha(s.files[h]) == h)
    && (forall h <- s.objects :: s.objects[h].status == Ready ==> h in s.files)
    && (forall id <- s.lan :: s.lan[id].status != Purging ==> s.lan[id].obj in s.files)
  }

  /** True whenever no operation is under way: every live row's object is READY. */
  ghost predicate Healthy(s: Store) {
    forall id <- s.lan :: s.lan[id].status != Purging ==>
      s.lan[id].obj in s.objects && s.objects[s.lan[id].obj].status == Ready
  }

  /** From `s` to `t` rows only disappear, and only purging ones. */
  ghost predicate KeepsLive(s: Store, t: Store) {
    && (forall id <- t.lan :: id in s.lan && t.lan[id] == s.lan[id])
    && (forall id <- s.lan :: id !in t.lan ==> s.lan[id].status == Purging)
  }

  /** The plan meets no error, and every state along it, first and last included, is Core. */
  ghost predicate Safe(s: Store, plan: seq<Stmt>)
    decreases |plan|
  {
    && Core(s)
    && (plan != [] ==>
          && Exec(s, plan[0]).Some?
          && KeepsLive(s, Exec(s, plan[0]).value)
          && Safe(Exec(s, plan[0]).value, plan[1..]))
  }

  lemma {:induction false} ConcatSafe(s: Store, p: seq<Stmt>, q: seq<Stmt>)
    requires Safe(s, p) && Safe(ExecAll(s, p), q)
    ensures Safe(s, p + q)
    ensures ExecAll(s, p + q) == ExecAll(ExecAll(s, p), q)
    decreases |p|
  {
    if p == [] {
      assert p + q == q;
    } else {
      assert (p + q)[0] == p[0] && (p + q)[1..] == p[1..] + q;
      ConcatSafe(Exec(s, p[0]).value, p[1..], q);
    }
  }

  /** No statement of the plan reports an error. */
  ghost predicate NoError(s: Store, plan: seq<Stmt>)
    decreases |plan|
  {
    plan != [] ==> Exec(s, plan[0]).Some? && NoError(Exec(s, plan[0]).value, plan[1..])
  }

  lemma {:induction false} ExecAllConcat(s: Store, p: seq<Stmt>, q: seq<Stmt>)
    requires NoError(s, p)
    ensures ExecAll(s, p + q) == ExecAll(ExecAll(s, p), q)
    ensures NoError(ExecAll(s, p), q) ==> NoError(s, p + q)
    decreases |p|
  {
    if p == [] {
      assert p + q == q;
    } else {
      assert (p + q)[0] == p[0] && (p + q)[1..] == p[1..] + q;
      ExecAllConcat(Exec(s, p[0]).value, p[1..], q);
    }
  }

  lemma {:induction false} SafeKeepsLive(s: Store, plan: seq<Stmt>)
    requires Safe(s, plan)
    ensures Core(ExecAll(s, plan)) && KeepsLive(s, ExecAll(s, plan))
    decreases |plan|
  {
    if plan != [] {
      SafeKeepsLive(Exec(s, plan[0]).value, plan[1..]);
    }
  }

  /** A single statement that keeps Core. */
  lemma SafeStep(s: Store, stmt: Stmt, rest: seq<Stmt>)
    requires Core(s) && Exec(s, stmt).Some?
    requires KeepsLive(s, Exec(s, stmt).value) && Safe(Exec(s, stmt).value, rest)
    ensures Safe(s, [stmt] + rest)
    ensures ExecAll(s, [stmt] + rest) == ExecAll(Exec(s, stmt).value, rest)
  {
    assert ([stmt] + rest)[0] == stmt && ([stmt] + rest)[1..] == rest;
  }

  // ---- Import ----

  lemma PublishSafe(s: Store, bytes: Bytes)
    requires Core(s)
    requires forall id <- s.lan :: s.lan[id].status != Purging && s.lan[id].obj != Sha(bytes) ==>
      s.objects[s.lan[id].obj].status == Ready
    ensures Safe(s, PublishPlan(Sha(bytes), bytes))
    ensures var t := ExecAll(s, PublishPlan(Sha(bytes), bytes));
      && Healthy(t) && t.lan == s.lan && Sha(bytes) in t.objects
      && t.objects[Sha(bytes)] == ObjectRecord(Ready, |bytes|)
      && Sha(bytes) in t.files && t.files[Sha(bytes)] == bytes
  {
    var h := Sha(bytes);
    var s1 := Exec(s, Upsert(h, |bytes|, Importing)).value;
    var s2 := Exec(s1, WriteFile(h, bytes)).value;
    var s3 := Exec(s2, SetStatus(h, Ready)).value;
    SafeStep(s2, SetStatus(h, Ready), []);
    SafeStep(s1, WriteFile(h, bytes), [SetStatus(h, Ready)]);
    SafeStep(s, Upsert(h, |bytes|, Importing), [WriteFile(h, bytes)] + [SetStatus(h, Ready)]);
    assert PublishPlan(h, bytes)
        == [Upsert(h, |bytes|, Importing)] + ([WriteFile(h, bytes)] + [SetStatus(h, Ready)]);
    assert [SetStatus(h, Ready)] + [] == [SetStatus(h, Ready)];
  }

  /** Import keeps Core at every statement and ends with the content READY and stored. */
  lemma ImportSafe(s: Store, bytes: Bytes)
    requires Core(s) && Healthy(s)
    ensures Safe(s, ImportPlan(s, bytes))
    ensures var t := ExecAll(s, ImportPlan(s, bytes));
      && Healthy(t) && t.lan == s.lan
      && Sha(bytes) in t.objects && t.objects[Sha(bytes)] == ObjectRecord(Ready, |bytes|)
      && Sha(bytes) in t.files && Sha(t.files[Sha(bytes)]) == Sha(bytes)
  {
    if ImportPlan(s, bytes) != [] {
      PublishSafe(s, bytes);
    }
  }

  // ---- Purge ----

  lemma DeleteSteps(s: Store, h: Hash)
    requires h in s.objects
    ensures ExecAll(s, DeletePlan(h)) == Store(s.files - {h}, s.objects - {h}, Cascade(s.lan, h))
  {
    var s1 := Exec(s, SetStatus(h, Deleting)).value;
    var s2 := Exec(s1, RemoveFile(h)).value;
    assert DeletePlan(h)[1..] == [RemoveFile(h), DropRecord(h)];
    assert DeletePlan(h)[1..][1..] == [DropRecord(h)];
    assert Exec(s2, DropRecord(h)).value.objects == s.objects - {h};
    assert ExecAll(s2, [DropRecord(h)]) == Exec(s2, DropRecord(h)).value;
    assert ExecAll(s1, [RemoveFile(h), DropRecord(h)]) == ExecAll(s2, [DropRecord(h)]);
  }

  lemma DeleteSafe(s: Store, h: Hash)
    requires Core(s) && Healthy(s) && h in s.objects
    requires forall id <- s.lan :: s.lan[id].obj == h ==> s.lan[id].status == Purging
    ensures Safe(s, DeletePlan(h)) && Healthy(ExecAll(s, DeletePlan(h)))
  {
    var s1 := Exec(s, SetStatus(h, Deleting)).value;
    var s2 := Exec(s1, RemoveFile(h)).value;
    var s3 := Exec(s2, DropRecord(h)).value;
    DeleteSteps(s, h);
    assert Core(s1);
    assert Core(s2);
    assert Core(s3);
    assert KeepsLive(s2, s3);
    assert DeletePlan(h)[1..] == [RemoveFile(h), DropRecord(h)];
    assert DeletePlan(h)[1..][1..] == [DropRecord(h)];
    assert Safe(s2, [DropRecord(h)]);
    assert Safe(s1, [RemoveFile(h), DropRecord(h)]);
  }

  /**
   A purge of a marked row keeps Core at every statement, removes exactly that row, and
   removes the object exactly when no other row references it.
   */
  lemma PurgeSafe(s: Store, id: FileId)
    requires Core(s) && Healthy(s) && id in s.lan && s.lan[id].status == Purging
    ensures Safe(s, PurgePlan(s, id))
    ensures var t := ExecAll(s, PurgePlan(s, id));
      var h := s.lan[id].obj;
      && Healthy(t) && t.lan == s.lan - {id}
      && (if LastReference(s, id, h)
          then t.objects == s.objects - {h} && t.files == s.files - {h}
          else t.objects == s.objects && t.files == s.files)
  {
    var h := s.lan[id].obj;
    if LastReference(s, id, h) {
      DeleteSafe(s, h);
      DeleteSteps(s, h);
      assert Cascade(s.lan, h) == s.lan - {id};
    } else {
      SafeStep(s, DropRow(id, s.lan[id].owner), []);
      assert [DropRow(id, s.lan[id].owner)] + [] == [DropRow(id, s.lan[id].owner)];
    }
  }

  // ---- Startup recovery ----

  /** The record one pass leaves for a hash that has a file or a record. */
  function RecoveredRecord(s: Store, h: Hash): ObjectRecord
    requires h in s.files || h in s.objects
  {
    if h in s.files && h !in s.objects then ObjectRecord(Quarantined, |s.files[h]|)
    else if h in s.files then
      s.objects[h].(status := if Inspect(s, h) == Intact then Ready else Corrupt)
    else if s.objects[h].status == Ready then s.objects[h].(status := Missing)
    else s.objects[h]
  }

  /** Records the clean-up deletes: old, not READY, and with no file behind them. */
  predicate Dropped(s: Store, stale: set<Hash>, h: Hash) {
    h in stale && h !in s.files
  }

  /** The whole effect of one recovery pass. */
  function Recovered(s: Store, stale: set<Hash>): Store {
    Store(
      s.files,
      map h | h in s.files.Keys + s.objects.Keys && !Dropped(s, stale, h) :: RecoveredRecord(s, h),
      map id | id in s.lan && !Dropped(s, stale, s.lan[id].obj) :: s.lan[id])
  }

  function Overlay(s: Store, objects: map<Hash, ObjectRecord>, done: seq<Hash>): map<Hash, ObjectRecord>
    requires forall h <- done :: h in s.files || h in s.objects
  {
    map h | h in objects.Keys + (set x | x in done) :: if h in done then RecoveredRecord(s, h) else objects[h]
  }

  lemma VisitEffect(s: Store, cur: Store, h: Hash)
    requires h in s.files
    requires h in s.objects ==> h in cur.objects && cur.objects[h] == s.objects[h]
    ensures NoError(cur, VisitPlan(s, h))
    ensures ExecAll(cur, VisitPlan(s, h)) == cur.(objects := cur.objects[h := RecoveredRecord(s, h)])
  {
    var plan := VisitPlan(s, h);
    if plan == [] {
      assert cur.objects == cur.objects[h := RecoveredRecord(s, h)];
    } else if |plan| == 2 {
      assert plan[1..] == [SetStatus(h, Corrupt)] && plan[1..][1..] == [];
      var once := Exec(cur, SetStatus(h, Corrupt)).value;
      assert Exec(once, SetStatus(h, Corrupt)).value.objects == cur.objects[h := RecoveredRecord(s, h)];
      assert ExecAll(once, plan[1..]) == Exec(once, SetStatus(h, Corrupt)).value;
    } else {
      assert plan[1..] == [];
    }
  }

  lemma {:induction false} WalkEffect(s: Store, cur: Store, walk: seq<Hash>)
    requires forall h <- walk :: h in s.files
    requires forall i, j :: 0 <= i < j < |walk| ==> walk[i] != walk[j]
    requires forall h <- walk :: h in s.objects ==> h in cur.objects && cur.objects[h] == s.objects[h]
    ensures NoError(cur, WalkPlan(s, walk))
    ensures ExecAll(cur, WalkPlan(s, walk)) == cur.(objects := Overlay(s, cur.objects, walk))
    decreases |walk|
  {
    if walk == [] {
      assert Overlay(s, cur.objects, walk) == cur.objects;
    } else {
      var next := cur.(objects := cur.objects[walk[0] := RecoveredRecord(s, walk[0])]);
      VisitEffect(s, cur, walk[0]);
      ExecAllConcat(cur, VisitPlan(s, walk[0]), WalkPlan(s, walk[1..]));
      WalkEffect(s, next, walk[1..]);
      assert Overlay(s, next.objects, walk[1..]) == Overlay(s, cur.objects, walk);
    }
  }

  function Downgraded(s: Store, objects: map<Hash, ObjectRecord>, done: seq<Hash>): map<Hash, ObjectRecord>
    requires forall h <- done :: h in s.objects
  {
    map h | h in objects ::
      if h in done && h !in s.files && s.objects[h].status == Ready then RecoveredRecord(s, h) else objects[h]
  }

  lemma Cons(first: Stmt, rest: seq<Stmt>)
    ensures ([first] + rest)[0] == first && ([first] + rest)[1..] == rest
  {
  }

  lemma DowngradedStep(s: Store, objects: map<Hash, ObjectRecord>, listed: seq<Hash>)
    requires listed != [] && forall h <- listed :: h in s.objects && h in objects
    requires listed[0] !in s.files && s.objects[listed[0]].status == Ready
    ensures Downgraded(s, objects[listed[0] := RecoveredRecord(s, listed[0])], listed[1..]) == Downgraded(s, objects, listed)
  {
  }

  lemma DowngradedSkip(s: Store, objects: map<Hash, ObjectRecord>, listed: seq<Hash>)
    requires listed != [] && forall h <- listed :: h in s.objects
    requires listed[0] in s.files || s.objects[listed[0]].status != Ready
    ensures Downgraded(s, objects, listed[1..]) == Downgraded(s, objects, listed)
  {
  }

  lemma {:induction false} ReverseEffect(s: Store, cur: Store, listed: seq<Hash>)
    requires forall h <- listed :: h in s.objects && h in cur.objects
    requires forall i, j :: 0 <= i < j < |listed| ==> listed[i] != listed[j]
    requires forall h <- listed :: h !in s.files ==> cur.objects[h] == s.objects[h]
    ensures NoError(cur, ReversePlan(s, listed))
    ensures ExecAll(cur, ReversePlan(s, listed)) == cur.(objects := Downgraded(s, cur.objects, listed))
    decreases |listed|
  {
    if listed == [] {
      assert Downgraded(s, cur.objects, listed) == cur.objects;
    } else {
      var h := listed[0];
      if h !in s.files && s.objects[h].status == Ready {
        var next := cur.(objects := cur.objects[h := RecoveredRecord(s, h)]);
        var rest := ReversePlan(s, listed[1..]);
        Cons(SetStatus(h, Missing), rest);
        ReverseEffect(s, next, listed[1..]);
        DowngradedStep(s, cur.objects, listed);
      } else {
        ReverseEffect(s, cur, listed[1..]);
        assert [] + ReversePlan(s, listed[1..]) == ReversePlan(s, listed[1..]);
        DowngradedSkip(s, cur.objects, listed);
      }
    }
  }

  function Cleaned(s: Store, cur: Store, stale: seq<Hash>): Store {
    cur.(objects := map h | h in cur.objects && !(h in stale && h !in s.files) :: cur.objects[h],
         lan := map id | id in cur.lan && !(cur.lan[id].obj in stale && cur.lan[id].obj !in s.files) :: cur.lan[id])
  }

  lemma {:induction false} CleanupEffect(s: Store, cur: Store, stale: seq<Hash>)
    requires forall h <- stale :: h in s.files || h in cur.objects
    requires forall i, j :: 0 <= i < j < |stale| ==> stale[i] != stale[j]
    ensures NoError(cur, CleanupPlan(s, stale))
    ensures ExecAll(cur, CleanupPlan(s, stale)) == Cleaned(s, cur, stale)
    decreases |stale|
  {
    if stale == [] {
      assert Cleaned(s, cur, stale) == cur;
    } else {
      var h := stale[0];
      var rest := CleanupPlan(s, stale[1..]);
      if h in s.files {
        CleanupEffect(s, cur, stale[1..]);
        assert [] + rest == rest;
        CleanedSkip(s, cur, stale);
      } else {
        var next := cur.(objects := cur.objects - {h}, lan := Cascade(cur.lan, h));
        assert ([DropRecord(h)] + rest)[1..] == rest;
        CleanupEffect(s, next, stale[1..]);
        CleanedStep(s, cur, stale);
      }
    }
  }

  lemma CleanedSkip(s: Store, cur: Store, stale: seq<Hash>)
    requires stale != [] && stale[0] in s.files
    ensures Cleaned(s, cur, stale[1..]) == Cleaned(s, cur, stale)
  {
    var t, r := Cleaned(s, cur, stale[1..]), Cleaned(s, cur, stale);
    assert forall h :: h in stale <==> h == stale[0] || h in stale[1..];
    assert t.objects == r.objects;
    assert t.lan == r.lan;
  }

  lemma CleanedStep(s: Store, cur: Store, stale: seq<Hash>)
    requires stale != [] && stale[0] !in s.files
    ensures Cleaned(s, cur.(objects := cur.objects - {stale[0]}, lan := Cascade(cur.lan, stale[0])), stale[1..])
         == Cleaned(s, cur, stale)
  {
    var next := cur.(objects := cur.objects - {stale[0]}, lan := Cascade(cur.lan, stale[0]));
    var t, r := Cleaned(s, next, stale[1..]), Cleaned(s, cur, stale);
    assert forall h :: h in stale <==> h == stale[0] || h in stale[1..];
    assert t.objects == r.objects;
    assert t.lan == r.lan;
  }

  /**
   One recovery pass, whatever the state it finds and whatever orders it uses, has exactly
   the effect `Recovered` describes.
   */
  lemma RecoveryEffect(s: Store, walk: seq<Hash>, listed: seq<Hash>, stale: seq<Hash>)
    requires RecoveryOrders(s, walk, listed, stale)
    ensures NoError(s, RecoveryPlan(s, walk, listed, stale))
    ensures ExecAll(s, RecoveryPlan(s, walk, listed, stale)) == Recovered(s, set h | h in stale)
  {
    WalkEffect(s, s, walk);
    var s1 := s.(objects := Overlay(s, s.objects, walk));
    ReverseEffect(s, s1, listed);
    var s2 := s1.(objects := Downgraded(s, s1.objects, listed));
    CleanupEffect(s, s2, stale);
    ThreePlans(s, WalkPlan(s, walk), s1, ReversePlan(s, listed), s2, CleanupPlan(s, stale));
    RecoveredIsCleaned(s, walk, listed, stale, s2);
  }

  lemma ThreePlans(s: Store, p: seq<Stmt>, s1: Store, q: seq<Stmt>, s2: Store, r: seq<Stmt>)
    requires NoError(s, p) && ExecAll(s, p) == s1
    requires NoError(s1, q) && ExecAll(s1, q) == s2 && NoError(s2, r)
    ensures NoError(s, p + q + r) && ExecAll(s, p + q + r) == ExecAll(s2, r)
  {
    ExecAllConcat(s, p, q);
    ExecAllConcat(s, p + q, r);
  }

  lemma RecoveredIsCleaned(s: Store, walk: seq<Hash>, listed: seq<Hash>, stale: seq<Hash>, s2: Store)
    requires RecoveryOrders(s, walk, listed, stale)
    requires s2 == s.(objects := Downgraded(s, Overlay(s, s.objects, walk), listed))
    ensures Cleaned(s, s2, stale) == Recovered(s, set h | h in stale)
  {
    var walked := Overlay(s, s.objects, walk);
    assert walked.Keys == s.files.Keys + s.objects.Keys;
    forall h | h in walked ensures s2.objects[h] == RecoveredRecord(s, h) {
      assert h in walk <==> h in s.files;
      assert h in listed <==> h in s.objects;
    }
    SameAsRecovered(s, s2, stale);
  }

  lemma SameAsRecovered(s: Store, s2: Store, stale: seq<Hash>)
    requires s2.files == s.files && s2.lan == s.lan
    requires s2.objects.Keys == s.files.Keys + s.objects.Keys
    requires forall h <- s2.objects :: s2.objects[h] == RecoveredRecord(s, h)
    ensures Cleaned(s, s2, stale) == Recovered(s, set h | h in stale)
  {
    var t, r := Cleaned(s, s2, stale), Recovered(s, set h | h in stale);
    assert t.objects == r.objects;
    assert t.lan == r.lan;
  }

  lemma {:induction false} WalkSafe(s: Store, cur: Store, walk: seq<Hash>)
    requires Core(s) && Core(cur) && cur.files == s.files
    requires forall h <- walk :: h in s.files
    requires forall h <- s.objects :: h in cur.objects
    ensures Safe(cur, WalkPlan(s, walk))
    decreases |walk|
  {
    if walk != [] {
      var visit := VisitPlan(s, walk[0]);
      var rest := WalkPlan(s, walk[1..]);
      if visit == [] {
        assert visit + rest == rest;
        WalkSafe(s, cur, walk[1..]);
      } else {
        assert visit == [visit[0]] && (visit + rest)[1..] == rest;
        WalkSafe(s, Exec(cur, visit[0]).value, walk[1..]);
      }
    }
  }

  lemma {:induction false} ReverseSafe(s: Store, listed: seq<Hash>)
    requires Core(s) && forall h <- listed :: h in s.objects
    ensures ReversePlan(s, listed) == []
  {
    if listed != [] {
      ReverseSafe(s, listed[1..]);
    }
  }

  lemma {:induction false} CleanupSafe(s: Store, cur: Store, stale: seq<Hash>)
    requires Core(cur) && cur.files == s.files
    requires forall h <- stale :: h in s.files || h in cur.objects
    requires forall i, j :: 0 <= i < j < |stale| ==> stale[i] != stale[j]
    ensures Safe(cur, CleanupPlan(s, stale))
    decreases |stale|
  {
    if stale != [] {
      var h := stale[0];
      var rest := CleanupPlan(s, stale[1..]);
      if h in s.files {
        CleanupSafe(s, cur, stale[1..]);
        assert [] + rest == rest;
      } else {
        assert ([DropRecord(h)] + rest)[1..] == rest;
        CleanupSafe(s, Exec(cur, DropRecord(h)).value, stale[1..]);
      }
    }
  }

  /**
   From any state a crash can leave, recovery loses no live row at any of its own
   statements, and when it finishes every live row's object is READY again.
   */
  lemma RecoverySafe(s: Store, walk: seq<Hash>, listed: seq<Hash>, stale: seq<Hash>)
    requires Core(s) && RecoveryOrders(s, walk, listed, stale)
    ensures Safe(s, RecoveryPlan(s, walk, listed, stale))
    ensures Healthy(ExecAll(s, RecoveryPlan(s, walk, listed, stale)))
  {
    RecoveryEffect(s, walk, listed, stale);
    RecoveredHealthy(s, set h | h in stale);
    RecoveryStaysSafe(s, walk, listed, stale);
  }

  lemma RecoveredHealthy(s: Store, stale: set<Hash>)
    requires Core(s)
    ensures Healthy(Recovered(s, stale))
  {
    var t := Recovered(s, stale);
    forall id | id in t.lan && t.lan[id].status != Purging
      ensures t.lan[id].obj in t.objects && t.objects[t.lan[id].obj].status == Ready
    {
      assert t.lan[id].obj in s.files;
    }
  }

  /** Quarantine lasts one pass: the next recovery judges the file by its bytes alone. */
  lemma QuarantineIsProvisional(s: Store, stale: set<Hash>, stale': set<Hash>, h: Hash)
    requires h in s.files && h !in s.objects
    ensures var once := Recovered(s, stale);
      var twice := Recovered(once, stale');
      && h in once.objects && once.objects[h].status == Quarantined
      && h in twice.objects && twice.objects[h].status == (if Sha(s.files[h]) == h then Ready else Corrupt)
  {
    var once := Recovered(s, stale);
    assert !Dropped(s, stale, h) && !Dropped(once, stale', h);
    assert RecoveredRecord(s, h).status == Quarantined;
  }

  lemma WalkKeeps(s: Store, walk: seq<Hash>)
    requires Enumerates(walk, s.files.Keys)
    ensures ExecAll(s, WalkPlan(s, walk)).files == s.files
    ensures s.objects.Keys <= ExecAll(s, WalkPlan(s, walk)).objects.Keys
  {
    WalkEffect(s, s, walk);
  }

  lemma RecoveryStaysSafe(s: Store, walk: seq<Hash>, listed: seq<Hash>, stale: seq<Hash>)
    requires Core(s) && RecoveryOrders(s, walk, listed, stale)
    ensures Safe(s, RecoveryPlan(s, walk, listed, stale))
  {
    var p, q := WalkPlan(s, walk), CleanupPlan(s, stale);
    WalkSafe(s, s, walk);
    ReverseSafe(s, listed);
    WalkKeeps(s, walk);
    SafeKeepsLive(s, p);
    CleanupSafe(s, ExecAll(s, p), stale);
    ConcatSafe(s, p, q);
    assert p + ReversePlan(s, listed) == p;
  }

  lemma {:induction false} PrefixSafe(s: Store, plan: seq<Stmt>, k: nat)
    requires Safe(s, plan) && k <= |plan|
    ensures Safe(s, plan[..k])
    decreases |plan|
  {
    if k > 0 {
      assert plan[..k][0] == plan[0] && plan[..k][1..] == plan[1..][..k - 1];
      PrefixSafe(Exec(s, plan[0]).value, plan[1..], k - 1);
    }
  }

  /**
   A crash after any number of statements of a safe plan, an import, a purge or a recovery
   alike, loses no live row, and the recovery that follows makes every live row READY again.
   */
  lemma CutRecovers(s: Store, plan: seq<Stmt>, k: nat, walk: seq<Hash>, listed: seq<Hash>, stale: seq<Hash>)
    requires Safe(s, plan) && k <= |plan|
    requires RecoveryOrders(ExecAll(s, plan[..k]), walk, listed, stale)
    ensures var cut := ExecAll(s, plan[..k]);
      var recovered := ExecAll(cut, RecoveryPlan(cut, walk, listed, stale));
      KeepsLive(s, cut) && KeepsLive(s, recovered) && Core(recovered) && Healthy(recovered)
    ensures var cut := ExecAll(s, plan[..k]);
      var recovered := ExecAll(cut, RecoveryPlan(cut, walk, listed, stale));
      forall id <- s.lan :: s.lan[id].status != Purging ==>
        && id in recovered.lan && recovered.lan[id] == s.lan[id]
        && s.lan[id].obj in recovered.objects && recovered.objects[s.lan[id].obj].status == Ready
        && s.lan[id].obj in recovered.files && Sha(recovered.files[s.lan[id].obj]) == s.lan[id].obj
  {
    var cut := ExecAll(s, plan[..k]);
    PrefixSafe(s, plan, k);
    SafeKeepsLive(s, plan[..k]);
    RecoverySafe(cut, walk, listed, stale);
    SafeKeepsLive(cut, RecoveryPlan(cut, walk, listed, stale));
    LiveRowsStand(s, cut, ExecAll(cut, RecoveryPlan(cut, walk, listed, stale)));
  }

  /** What keeping live rows means in the end: each row as it was, its object READY, its bytes stored and intact. */
  lemma LiveRowsStand(s: Store, cut: Store, recovered: Store)
    requires KeepsLive(s, cut) && KeepsLive(cut, recovered) && Core(recovered) && Healthy(recovered)
    ensures KeepsLive(s, recovered)
    ensures forall id <- s.lan :: s.lan[id].status != Purging ==>
      && id in recovered.lan && recovered.lan[id] == s.lan[id]
      && s.lan[id].obj in recovered.objects && recovered.objects[s.lan[id].obj].status == Ready
      && s.lan[id].obj in recovered.files && Sha(recovered.files[s.lan[id].obj]) == s.lan[id].obj
  {
  }
}
