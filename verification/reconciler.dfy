/**
 * One synchronisation pass (`sync_files`): list the regular files of the local
 * folder, try to upload every one not yet in the session's uploaded set, and add
 * a name to that set only when its upload did not raise.
 *
 * The upload itself is an oracle `accepts: string -> bool` telling, per file
 * name, whether the Dropbox call returned (true) or raised (false).
 */
module Reconciler {
  import opened Optional
  import opened Paths
  import opened LocalFs

  /** The per-file result of one loop iteration. */
  datatype Attempt = Attempt(name: string, localPath: string, remotePath: string, succeeded: bool)

  /** How a pass ended: the folder check failed, `os.listdir` raised, or the
      loop ran over the set of names it tried. */
  datatype Outcome = FolderNotFound | ListingRaised | Processed(attempted: set<string>)

  datatype PassResult = PassResult(uploaded: set<string>, outcome: Outcome)

  /** The uploaded set at the start of a pass: an absent session key becomes the empty set. */
  function Prior(session: Option<set<string>>): set<string> {
    session.GetOr({})
  }

  /** The names a pass tries. */
  function Attempted(o: Outcome): set<string> {
    if o.Processed? then o.attempted else {}
  }

  /** The names among `names` whose upload returns. */
  function Successes(names: set<string>, accepts: string -> bool): set<string> {
    set n | n in names && accepts(n)
  }

  /** One more name adds itself to the successes when its upload returns. */
  lemma SuccessesAdd(names: set<string>, name: string, accepts: string -> bool)
    ensures Successes(names + {name}, accepts)
            == Successes(names, accepts) + (if accepts(name) then {name} else {})
  {
  }

  /** What one iteration sends to Dropbox for `name`, and whether it returned. */
  function AttemptFor(localFolder: string, remoteFolder: string, name: string,
                      accepts: string -> bool): Attempt {
    Attempt(name, Join(localFolder, name), RemotePath(remoteFolder, name), accepts(name))
  }

  /** The pass, independent of the order in which the new names are visited. */
  function Reconcile(session: Option<set<string>>, folder: LocalFolder,
                     accepts: string -> bool): (r: PassResult)
    ensures Prior(session) <= r.uploaded
    ensures !Exists(folder) ==> r == PassResult(Prior(session), FolderNotFound)
    ensures folder.Unlistable? ==> r == PassResult(Prior(session), ListingRaised)
    ensures r.outcome.Processed? <==> folder.Dir?
    ensures r.uploaded - Prior(session) <= Attempted(r.outcome)
    ensures Attempted(r.outcome) !! Prior(session)
    ensures folder.Dir? ==> forall n :: n in folder.entries ==>
              (n in Attempted(r.outcome) <==> folder.entries[n] == RegularFile && n !in Prior(session))
    ensures folder.Dir? ==> Attempted(r.outcome) == GetFilesInFolder(folder).value - Prior(session)
    ensures r.uploaded == Prior(session) + Successes(Attempted(r.outcome), accepts)
  {
    var prior := Prior(session);
    if !Exists(folder) then PassResult(prior, FolderNotFound)
    else
      var listed := GetFilesInFolder(folder);
      if listed.None? then PassResult(prior, ListingRaised)
      else
        var newNames := listed.value - prior;
        PassResult(prior + Successes(newNames, accepts), Processed(newNames))
  }

  /** The names that occur in a visiting order. */
  function Elements(order: seq<string>): set<string> {
    set n | n in order
  }

  /** Splitting off the first name of an order. */
  lemma ElementsCons(order: seq<string>)
    requires order != []
    ensures Elements(order) == {order[0]} + Elements(order[1..])
  {
  }

  /** The loop of `sync_files` run over the new names in one given order. */
  function UploadEach(order: seq<string>, uploaded: set<string>, localFolder: string,
                      remoteFolder: string, accepts: string -> bool): (r: (set<string>, seq<Attempt>))
    ensures r.0 == uploaded + Successes(Elements(order), accepts)
    ensures |r.1| == |order|
    ensures forall i :: 0 <= i < |order| ==> r.1[i].name == order[i]
    ensures forall a :: a in r.1 ==> a == AttemptFor(localFolder, remoteFolder, a.name, accepts)
  {
    if order == [] then (uploaded, [])
    else
      var a := AttemptFor(localFolder, remoteFolder, order[0], accepts);
      var next := if a.succeeded then uploaded + {order[0]} else uploaded;
      var rest := UploadEach(order[1..], next, localFolder, remoteFolder, accepts);
      ElementsCons(order);
      SuccessesAdd(Elements(order[1..]), order[0], accepts);
      assert rest.0 == uploaded + Successes(Elements(order), accepts);
      (rest.0, [a] + rest.1)
  }

  /** A sequence that lists every element of `s` exactly once. */
  ghost predicate Enumerates(order: seq<string>, s: set<string>) {
    && (forall i, j :: 0 <= i < j < |order| ==> order[i] != order[j])
    && (forall n :: n in order <==> n in s)
  }

  /** Whatever order Python's set iteration picks, the loop ends with the uploaded
      set of the order-free pass and makes one attempt per new name. */
  lemma AnyOrderAgrees(session: Option<set<string>>, folder: LocalFolder, order: seq<string>,
                       localFolder: string, remoteFolder: string, accepts: string -> bool)
    requires Enumerates(order, Attempted(Reconcile(session, folder, accepts).outcome))
    ensures UploadEach(order, Prior(session), localFolder, remoteFolder, accepts).0
            == Reconcile(session, folder, accepts).uploaded
    ensures |UploadEach(order, Prior(session), localFolder, remoteFolder, accepts).1|
            == |Attempted(Reconcile(session, folder, accepts).outcome)|
  {
    var newNames := Attempted(Reconcile(session, folder, accepts).outcome);
    assert Elements(order) == newNames;
    DistinctCardinality(order, newNames);
  }

  /** A pass cut short after `k` names. A rerun request surfaces as an exception
      from the message call that follows an upload, and the handler does not catch
      it (it is not an `Exception`), so the loop ends there. The names already
      added stay, and the pass still tried only new names. Its set lies between
      the old set and what the full pass adds. Every name it did not reach is left
      out of the set, so the next pass over the same folder tries it. */
  lemma InterruptedPass(session: Option<set<string>>, folder: LocalFolder, order: seq<string>,
                        k: nat, localFolder: string, remoteFolder: string,
                        accepts: string -> bool, acceptsNext: string -> bool)
    requires Enumerates(order, Attempted(Reconcile(session, folder, accepts).outcome))
    requires k <= |order|
    ensures var partial := UploadEach(order[..k], Prior(session), localFolder, remoteFolder, accepts).0;
            && Prior(session) <= partial <= Reconcile(session, folder, accepts).uploaded
            && (forall i :: 0 <= i < k ==> order[i] !in Prior(session))
            && (forall i :: k <= i < |order| ==>
                  order[i] !in partial
                  && order[i] in Attempted(Reconcile(Some(partial), folder, acceptsNext).outcome))
  {
    var prior := Prior(session);
    var newNames := Attempted(Reconcile(session, folder, accepts).outcome);
    var partial := UploadEach(order[..k], prior, localFolder, remoteFolder, accepts).0;
    assert Elements(order[..k]) <= newNames by {
      forall n | n in Elements(order[..k]) ensures n in newNames {
        var j :| 0 <= j < k && order[..k][j] == n;
        assert order[j] == n;
      }
    }
    forall i | 0 <= i < k ensures order[i] !in prior {
      assert order[i] in newNames;
    }
    forall i | k <= i < |order|
      ensures order[i] !in partial
      ensures order[i] in Attempted(Reconcile(Some(partial), folder, acceptsNext).outcome)
    {
      assert order[i] in newNames;
    }
  }

  /** A duplicate-free sequence is as long as the set of its elements. */
  lemma {:induction false} DistinctCardinality(order: seq<string>, s: set<string>)
    requires Enumerates(order, s)
    ensures |order| == |s|
  {
    if order != [] {
      var rest := s - {order[0]};
      assert Enumerates(order[1..], rest) by {
        forall n ensures n in order[1..] <==> n in rest {
          if n in order[1..] {
            var k :| 0 <= k < |order[1..]| && order[1..][k] == n;
            assert order[k + 1] == n;
          }
        }
      }
      DistinctCardinality(order[1..], rest);
    }
  }

  /** The set of names a series of attempts covers. */
  function Names(attempts: seq<Attempt>): set<string> {
    set a | a in attempts :: a.name
  }

  /** No name is attempted twice. */
  predicate DistinctNames(attempts: seq<Attempt>) {
    forall i, j :: 0 <= i < j < |attempts| ==> attempts[i].name != attempts[j].name
  }

  /** An attempt for a name not tried yet keeps the names distinct. */
  lemma DistinctAppend(attempts: seq<Attempt>, a: Attempt)
    requires DistinctNames(attempts) && a.name !in Names(attempts)
    ensures DistinctNames(attempts + [a])
  {
  }

  /** One more attempt adds its name. */
  lemma NamesAppend(attempts: seq<Attempt>, a: Attempt)
    ensures Names(attempts + [a]) == Names(attempts) + {a.name}
  {
  }

  /** `sync_files`: visits the new names in an arbitrary order. */
  method SyncFiles(session: Option<set<string>>, folder: LocalFolder, localFolder: string,
                   remoteFolder: string, accepts: string -> bool)
    returns (uploaded: set<string>, outcome: Outcome, attempts: seq<Attempt>)
    ensures PassResult(uploaded, outcome) == Reconcile(session, folder, accepts)
    ensures Names(attempts) == Attempted(outcome)
    ensures DistinctNames(attempts)
    ensures forall a :: a in attempts ==> a == AttemptFor(localFolder, remoteFolder, a.name, accepts)
  {
    uploaded := Prior(session);
    attempts := [];
    if !Exists(folder) {
      outcome := FolderNotFound;
      return;
    }
    var listed := GetFilesInFolder(folder);
    if listed.None? {
      outcome := ListingRaised;
      return;
    }
    var newNames := listed.value - uploaded;
    ghost var prior := uploaded;
    var remaining := newNames;
    while remaining != {}
      invariant remaining <= newNames
      invariant uploaded == prior + Successes(newNames - remaining, accepts)
      invariant Names(attempts) == newNames - remaining
      invariant DistinctNames(attempts)
      invariant forall a :: a in attempts ==> a == AttemptFor(localFolder, remoteFolder, a.name, accepts)
      decreases remaining
    {
      var name :| name in remaining;
      var a := AttemptFor(localFolder, remoteFolder, name, accepts);
      if a.succeeded {
        uploaded := uploaded + {name};
      }
      SuccessesAdd(newNames - remaining, name, accepts);
      NamesAppend(attempts, a);
      DistinctAppend(attempts, a);
      assert newNames - (remaining - {name}) == (newNames - remaining) + {name};
      attempts := attempts + [a];
      remaining := remaining - {name};
    }
    outcome := Processed(newNames);
  }

  /** A missing folder makes no attempt and leaves the set as it was (initialised if absent). */
  lemma MissingFolderIsNoOp(session: Option<set<string>>, accepts: string -> bool)
    ensures Reconcile(session, Absent, accepts).uploaded == Prior(session)
    ensures Attempted(Reconcile(session, Absent, accepts).outcome) == {}
  {
  }

  /** After a pass the set is the old set plus exactly the new names whose upload returned. */
  lemma PassAddsExactlySuccesses(session: Option<set<string>>, folder: LocalFolder,
                                 accepts: string -> bool, n: string)
    ensures var r := Reconcile(session, folder, accepts);
            n in r.uploaded <==> n in Prior(session) || (n in Attempted(r.outcome) && accepts(n))
  {
  }

  /** The names a pass tries do not depend on any upload's result, and whether a name
      is added depends on its own upload only. */
  lemma FailureIsolation(session: Option<set<string>>, folder: LocalFolder,
                         accepts1: string -> bool, accepts2: string -> bool, n: string)
    ensures Reconcile(session, folder, accepts1).outcome == Reconcile(session, folder, accepts2).outcome
    ensures accepts1(n) == accepts2(n) ==>
              (n in Reconcile(session, folder, accepts1).uploaded
               <==> n in Reconcile(session, folder, accepts2).uploaded)
  {
  }

  /** A second pass over an unchanged folder tries exactly the names that failed in the first. */
  lemma SecondPassRetriesFailures(session: Option<set<string>>, folder: LocalFolder,
                                  accepts1: string -> bool, accepts2: string -> bool)
    ensures var r1 := Reconcile(session, folder, accepts1);
            var r2 := Reconcile(Some(r1.uploaded), folder, accepts2);
            Attempted(r2.outcome) == set n | n in Attempted(r1.outcome) && !accepts1(n)
  {
  }

  /** Idempotence: when every upload a pass tries returns, a second pass over the same
      folder makes no attempt and changes nothing. */
  lemma PassIsIdempotent(session: Option<set<string>>, folder: LocalFolder,
                         accepts1: string -> bool, accepts2: string -> bool)
    requires forall n :: n in Attempted(Reconcile(session, folder, accepts1).outcome) ==> accepts1(n)
    ensures var r1 := Reconcile(session, folder, accepts1);
            var r2 := Reconcile(Some(r1.uploaded), folder, accepts2);
            Attempted(r2.outcome) == {} && r2.uploaded == r1.uploaded
  {
  }

  /** The failing file of three is left out and the other two are added. */
  lemma PartialFailureExample()
    ensures var folder := Dir(map["a.txt" := RegularFile, "b.txt" := RegularFile, "c.txt" := RegularFile]);
            var r := Reconcile(Some({}), folder, n => n != "b.txt");
            r.uploaded == {"a.txt", "c.txt"} && Attempted(r.outcome) == {"a.txt", "b.txt", "c.txt"}
  {
  }

  /** With "a.txt" already uploaded and "b.txt" new, only "b.txt" is sent, to "/b.txt". */
  lemma NewFileExample()
    ensures var folder := Dir(map["a.txt" := RegularFile, "b.txt" := RegularFile, "docs" := Directory]);
            var r := Reconcile(Some({"a.txt"}), folder, n => true);
            && r.uploaded == {"a.txt", "b.txt"}
            && Attempted(r.outcome) == {"b.txt"}
            && RemotePath("/", "b.txt") == "/b.txt"
  {
    ExampleListing();
    assert {"a.txt", "b.txt"} - {"a.txt"} == {"b.txt"};
    RootRemotePath("b.txt");
  }
}
