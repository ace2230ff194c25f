/**
 * `migrateApplicationsToSanctions`, the one-off script that gives every
 * recommended application a Sanction.  Like every migration script it runs
 * its steps in order and stops at the first exception, keeping the writes
 * made before it.
 */
module SanctionMigration {
  import opened Wrappers
  import opened Seqs
  import opened Records
  import opened Stores

  /** No two sanctions share an id. */
  predicate SanctionIdsUnique(xs: seq<Sanction>)
  {
    forall i, j :: 0 <= i < j < |xs| ==> xs[i].id != xs[j].id
  }

  /** The unique index on a sanction's `application`. */
  predicate OneSanctionPerApp(xs: seq<Sanction>)
  {
    forall i, j :: 0 <= i < j < |xs| ==> xs[i].application != xs[j].application
  }

  /**
   * The sanction built for a recommended application: marked as changed, and
   * carrying the approval fields only when the application is approved.
   */
  function SanctionFor(app: Application, id: RecId): (x: Sanction)
    ensures x.id == id && x.application == app.id && x.recommendedBy == app.recommendedBy && x.isChanged
    ensures x.isApproved <==> app.isApproved
    ensures app.isApproved ==> x.approvedBy == app.approvedBy && x.sanctionDate == app.sanctionDate
    ensures !app.isApproved ==> x.approvedBy.None? && x.sanctionDate.None?
    ensures x.loanNo.None? && x.review == Unreviewed && !x.eSigned && !x.isDibursed
  {
    var x := NewSanction(id, app.id, app.recommendedBy).(isChanged := true);
    if app.isApproved then x.(isApproved := true, approvedBy := app.approvedBy, sanctionDate := app.sanctionDate)
    else x
  }

  /** Some sanction belongs to the application. */
  predicate Covered(xs: seq<Sanction>, appId: RecId)
  {
    exists i :: 0 <= i < |xs| && xs[i].application == appId
  }

  /** Some sanction has the id. */
  predicate IdTaken(xs: seq<Sanction>, id: RecId)
  {
    exists i :: 0 <= i < |xs| && xs[i].id == id
  }

  /** The sanctions after a run of writes, and how the run ended. */
  datatype Written = Written(sanctions: seq<Sanction>, reply: Reply)

  /** `r` keeps `xs` as its prefix. */
  predicate Extends(xs: seq<Sanction>, r: seq<Sanction>)
  {
    |xs| <= |r| && forall i :: 0 <= i < |xs| ==> r[i] == xs[i]
  }

  /**
   * The loop over the applications found: one with a sanction is skipped, any
   * other gets a new sanction under the id `newId` assigns (a save under an id
   * already taken throws and ends the run).
   */
  function CreateSanctions(xs: seq<Sanction>, apps: seq<Application>, newId: RecId -> RecId): (r: Written)
    ensures Extends(xs, r.sanctions)
    ensures r.reply == Done || r.reply == Fail(Thrown)
    ensures r.reply == Done ==> forall k :: 0 <= k < |apps| ==> Covered(r.sanctions, apps[k].id)
    decreases |apps|
  {
    if |apps| == 0 then Written(xs, Done)
    else
      var app := apps[0];
      if Covered(xs, app.id) then
        var r := CreateSanctions(xs, apps[1..], newId);
        CoveredGrows(xs, r.sanctions, app.id);
        r
      else if IdTaken(xs, newId(app.id)) then Written(xs, Fail(Thrown))
      else
        var xs1 := xs + [SanctionFor(app, newId(app.id))];
        assert xs1[|xs|].application == app.id;
        var r := CreateSanctions(xs1, apps[1..], newId);
        CoveredGrows(xs1, r.sanctions, app.id);
        r
  }

  /** An application covered stays covered when sanctions are appended. */
  lemma CoveredGrows(xs: seq<Sanction>, r: seq<Sanction>, appId: RecId)
    requires Extends(xs, r) && Covered(xs, appId)
    ensures Covered(r, appId)
  {
    var i :| 0 <= i < |xs| && xs[i].application == appId;
    assert r[i] == xs[i];
  }

  /** Every sanction the loop creates is the one built for a listed application. */
  lemma {:induction false} CreateBuildsFrom(xs: seq<Sanction>, apps: seq<Application>, newId: RecId -> RecId)
    ensures var r := CreateSanctions(xs, apps, newId).sanctions;
            forall i :: |xs| <= i < |r| ==>
              exists k :: 0 <= k < |apps| && r[i] == SanctionFor(apps[k], newId(apps[k].id))
    decreases |apps|
  {
    if |apps| > 0 {
      var app := apps[0];
      var r := CreateSanctions(xs, apps, newId).sanctions;
      if Covered(xs, app.id) {
        CreateBuildsFrom(xs, apps[1..], newId);
        assert r == CreateSanctions(xs, apps[1..], newId).sanctions;
        forall i | |xs| <= i < |r| ensures exists k :: 0 <= k < |apps| && r[i] == SanctionFor(apps[k], newId(apps[k].id)) {
          var k :| 0 <= k < |apps[1..]| && r[i] == SanctionFor(apps[1..][k], newId(apps[1..][k].id));
          assert apps[k + 1] == apps[1..][k];
        }
      } else if !IdTaken(xs, newId(app.id)) {
        var xs1 := xs + [SanctionFor(app, newId(app.id))];
        CreateBuildsFrom(xs1, apps[1..], newId);
        assert r == CreateSanctions(xs1, apps[1..], newId).sanctions;
        forall i | |xs| <= i < |r| ensures exists k :: 0 <= k < |apps| && r[i] == SanctionFor(apps[k], newId(apps[k].id)) {
          if i == |xs| {
            assert r[i] == xs1[i];
          } else {
            var k :| 0 <= k < |apps[1..]| && r[i] == SanctionFor(apps[1..][k], newId(apps[1..][k].id));
            assert apps[k + 1] == apps[1..][k];
          }
        }
      }
    }
  }

  /** The loop keeps sanction ids unique and gives no application a second sanction. */
  lemma {:induction false} CreateKeepsUnique(xs: seq<Sanction>, apps: seq<Application>, newId: RecId -> RecId)
    requires SanctionIdsUnique(xs) && OneSanctionPerApp(xs)
    ensures var r := CreateSanctions(xs, apps, newId).sanctions;
            SanctionIdsUnique(r) && OneSanctionPerApp(r)
    decreases |apps|
  {
    if |apps| > 0 {
      var app := apps[0];
      if Covered(xs, app.id) {
        CreateKeepsUnique(xs, apps[1..], newId);
      } else if !IdTaken(xs, newId(app.id)) {
        var xs1 := xs + [SanctionFor(app, newId(app.id))];
        assert SanctionIdsUnique(xs1) && OneSanctionPerApp(xs1) by {
          forall i, j | 0 <= i < j < |xs1|
            ensures xs1[i].id != xs1[j].id && xs1[i].application != xs1[j].application
          {
            if j == |xs| {
              assert xs1[i] == xs[i];
            }
          }
        }
        CreateKeepsUnique(xs1, apps[1..], newId);
      }
    }
  }

  /**
   * `migrateApplicationsToSanctions`: every recommended application gets a
   * sanction unless it has one; nothing but the sanctions changes.
   */
  function MigrateApplicationsToSanctions(s: Store, newId: RecId -> RecId): (r: Step)
    ensures r.store == s.(sanctions := r.store.sanctions)
    ensures Extends(s.sanctions, r.store.sanctions)
    ensures r.reply == Done ==>
              forall i :: 0 <= i < |s.applications| && s.applications[i].isRecommended ==>
                SanctionOfApp(r.store, s.applications[i].id).Some?
  {
    var apps := Filter(s.applications, (a: Application) => a.isRecommended);
    var w := CreateSanctions(s.sanctions, apps, newId);
    var r := Step(s.(sanctions := w.sanctions), w.reply);
    assert w.reply == Done ==>
             forall i :: 0 <= i < |s.applications| && s.applications[i].isRecommended ==>
               SanctionOfApp(r.store, s.applications[i].id).Some? by {
      if w.reply == Done {
        forall i | 0 <= i < |s.applications| && s.applications[i].isRecommended
          ensures SanctionOfApp(r.store, s.applications[i].id).Some?
        {
          var k :| 0 <= k < |apps| && apps[k] == s.applications[i];
          assert Covered(w.sanctions, apps[k].id);
        }
      }
    }
    r
  }

  /**
   * The sanctions the migration creates are built from recommended
   * applications, and the unique indexes on sanction ids and applications
   * still hold afterwards.
   */
  lemma MigrateBuildsFromRecommended(s: Store, newId: RecId -> RecId)
    ensures var r := MigrateApplicationsToSanctions(s, newId).store.sanctions;
            forall i :: |s.sanctions| <= i < |r| ==>
              exists k :: 0 <= k < |s.applications| && s.applications[k].isRecommended &&
                r[i] == SanctionFor(s.applications[k], newId(s.applications[k].id))
    ensures Wf(s) ==>
              var r := MigrateApplicationsToSanctions(s, newId).store.sanctions;
              SanctionIdsUnique(r) && OneSanctionPerApp(r)
  {
    var apps := Filter(s.applications, (a: Application) => a.isRecommended);
    var r := MigrateApplicationsToSanctions(s, newId).store.sanctions;
    CreateBuildsFrom(s.sanctions, apps, newId);
    forall i | |s.sanctions| <= i < |r|
      ensures exists k :: 0 <= k < |s.applications| && s.applications[k].isRecommended &&
                r[i] == SanctionFor(s.applications[k], newId(s.applications[k].id))
    {
      var j :| 0 <= j < |apps| && r[i] == SanctionFor(apps[j], newId(apps[j].id));
      var k :| 0 <= k < |s.applications| && s.applications[k] == apps[j];
    }
    if Wf(s) {
      CreateKeepsUnique(s.sanctions, apps, newId);
    }
  }

  /** When every application listed already has a sanction, the loop writes nothing. */
  lemma {:induction false} CreateSkipsCovered(xs: seq<Sanction>, apps: seq<Application>, newId: RecId -> RecId)
    requires forall k :: 0 <= k < |apps| ==> Covered(xs, apps[k].id)
    ensures CreateSanctions(xs, apps, newId) == Written(xs, Done)
    decreases |apps|
  {
    if |apps| > 0 {
      assert Covered(xs, apps[0].id);
      assert forall k :: 0 <= k < |apps[1..]| ==> apps[1..][k] == apps[k + 1];
      CreateSkipsCovered(xs, apps[1..], newId);
    }
  }

  /** Running the migration again after a complete run changes nothing. */
  lemma MigrateApplicationsIdempotent(s: Store, newId: RecId -> RecId)
    requires MigrateApplicationsToSanctions(s, newId).reply == Done
    ensures var r := MigrateApplicationsToSanctions(s, newId).store;
            MigrateApplicationsToSanctions(r, newId) == Step(r, Done)
  {
    var r := MigrateApplicationsToSanctions(s, newId).store;
    var apps := Filter(r.applications, (a: Application) => a.isRecommended);
    forall k | 0 <= k < |apps| ensures Covered(r.sanctions, apps[k].id) {
      var i :| 0 <= i < |s.applications| && s.applications[i] == apps[k];
      var p := SanctionOfApp(r, apps[k].id).value;
    }
    CreateSkipsCovered(r.sanctions, apps, newId);
  }
}
