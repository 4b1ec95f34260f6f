/**
  Properties of the submitted record as a whole: which keys it holds, under
  which condition each attribute's entry survives into it, and that attributes
  that are not required make no difference to it.
*/
module RecordProperties {
  import opened BindingKey
  import opened TestRecord

  /** A query that retrieved at least one record, so that its continuation writes a binding. */
  predicate Settles(p: Pending)
  {
    p.outcome.Retrieved? && |p.outcome.ids| > 0
  }

  /** `key` is the key that attribute `a` contributes to the record under draws `d`. */
  predicate WritesKey(a: Attribute, d: Draws, key: string)
    requires ValidDraws(a, d)
  {
    var act := Plan(a, d);
    || (act.Write? && key == a.name)
    || (act.Await? && Settles(act.lookup) && key == FormatLookupBindingKey(a.name))
  }

  /** The attributes with index `i` removed. */
  function Without<T>(s: seq<T>, i: nat): (r: seq<T>)
    requires i < |s|
    ensures |r| == |s| - 1
    ensures forall j :: 0 <= j < i ==> r[j] == s[j]
    ensures forall j :: i <= j < |r| ==> r[j] == s[j + 1]
  {
    s[..i] + s[i + 1..]
  }

  // ---------------------------------------------------------------------------
  // Which keys the record holds

  /** Every key written by the loop is the name of an attribute that wrote directly. */
  lemma {:induction false} SyncKeysFromWrites(attrs: seq<Attribute>, draws: seq<Draws>, key: string)
    requires AllValidDraws(attrs, draws)
    requires key in SyncRecord(attrs, draws)
    ensures exists i :: 0 <= i < |attrs| && Plan(attrs[i], draws[i]).Write? && key == attrs[i].name
    decreases |attrs|
  {
    var n := |attrs| - 1;
    var act := Plan(attrs[n], draws[n]);
    if !(act.Write? && key == attrs[n].name) {
      SyncKeysFromWrites(attrs[..n], draws[..n], key);
      var i :| 0 <= i < n && Plan(attrs[..n][i], draws[..n][i]).Write? && key == attrs[..n][i].name;
      assert attrs[..n][i] == attrs[i] && draws[..n][i] == draws[i];
    }
  }

  /** Every attribute that writes directly leaves its key in the loop's record. */
  lemma {:induction false} SyncKeysHoldWrites(attrs: seq<Attribute>, draws: seq<Draws>, i: nat)
    requires AllValidDraws(attrs, draws)
    requires i < |attrs| && Plan(attrs[i], draws[i]).Write?
    ensures attrs[i].name in SyncRecord(attrs, draws)
    decreases |attrs|
  {
    var n := |attrs| - 1;
    if i < n {
      assert attrs[..n][i] == attrs[i] && draws[..n][i] == draws[i];
      SyncKeysHoldWrites(attrs[..n], draws[..n], i);
    }
  }

  /** Every query the loop starts belongs to an attribute whose plan was to query. */
  lemma {:induction false} PromisesFromAwaits(attrs: seq<Attribute>, draws: seq<Draws>, j: nat)
    requires AllValidDraws(attrs, draws)
    requires j < |Promises(attrs, draws)|
    ensures exists i :: 0 <= i < |attrs| && Plan(attrs[i], draws[i]) == Await(Promises(attrs, draws)[j])
    decreases |attrs|
  {
    var n := |attrs| - 1;
    var prior := Promises(attrs[..n], draws[..n]);
    if j < |prior| {
      PromisesFromAwaits(attrs[..n], draws[..n], j);
      var i :| 0 <= i < n && Plan(attrs[..n][i], draws[..n][i]) == Await(prior[j]);
      assert attrs[..n][i] == attrs[i] && draws[..n][i] == draws[i];
    } else {
      assert Plan(attrs[n], draws[n]) == Await(Promises(attrs, draws)[j]);
    }
  }

  /** Every attribute whose plan is to query has its query among the promises. */
  lemma {:induction false} AwaitsInPromises(attrs: seq<Attribute>, draws: seq<Draws>, i: nat)
    requires AllValidDraws(attrs, draws)
    requires i < |attrs| && Plan(attrs[i], draws[i]).Await?
    ensures Plan(attrs[i], draws[i]).lookup in Promises(attrs, draws)
    decreases |attrs|
  {
    var n := |attrs| - 1;
    if i < n {
      assert attrs[..n][i] == attrs[i] && draws[..n][i] == draws[i];
      AwaitsInPromises(attrs[..n], draws[..n], i);
    }
  }

  /** The reference a settled query writes: `/<entity>s(<first id>)`. */
  function LookupReference(p: Pending): Value
    requires Settles(p)
  {
    Text("/" + p.entity + "s(" + p.outcome.ids[0] + ")")
  }

  /** Some query among `promises` retrieved a record and binds `key`. */
  predicate BindsKey(promises: seq<Pending>, key: string)
  {
    exists j :: 0 <= j < |promises| && Binds(promises[j], key)
  }

  /** Query `p` retrieved a record and its continuation writes `key`. */
  predicate Binds(p: Pending, key: string)
  {
    Settles(p) && key == FormatLookupBindingKey(p.attrName)
  }

  /** Settling one more query is one more step of SettleAll. */
  lemma SettleAllSnoc(record: map<string, Value>, promises: seq<Pending>, p: Pending)
    ensures SettleAll(record, promises + [p]) == Settle(SettleAll(record, promises), p)
  {
  }

  lemma BindsKeyLast(promises: seq<Pending>, key: string)
    requires promises != []
    ensures BindsKey(promises, key) <==>
      BindsKey(promises[..|promises| - 1], key) || Binds(promises[|promises| - 1], key)
  {
  }

  /** Settling only adds the binding keys of the queries that retrieved a record. */
  lemma {:induction false} SettleAllKeys(record: map<string, Value>, promises: seq<Pending>, key: string)
    ensures key in SettleAll(record, promises) <==> key in record || BindsKey(promises, key)
    decreases |promises|
  {
    if promises != [] {
      var n := |promises| - 1;
      SettleAllKeys(record, promises[..n], key);
      BindsKeyLast(promises, key);
    }
  }

  /**
    The submitted record holds exactly the keys the attributes contribute: the
    own name of each attribute that writes directly, and the binding key of each
    queried lookup whose query retrieved a record.
  */
  lemma SubmittedKeys(attrs: seq<Attribute>, draws: seq<Draws>, key: string)
    requires AllValidDraws(attrs, draws)
    ensures key in SubmittedRecord(attrs, draws) <==>
      exists i :: 0 <= i < |attrs| && WritesKey(attrs[i], draws[i], key)
  {
    var sync, promises := SyncRecord(attrs, draws), Promises(attrs, draws);
    SettleAllKeys(sync, promises, key);
    if key in SubmittedRecord(attrs, draws) {
      if key in sync {
        SyncKeysFromWrites(attrs, draws, key);
        var i :| 0 <= i < |attrs| && Plan(attrs[i], draws[i]).Write? && key == attrs[i].name;
        assert WritesKey(attrs[i], draws[i], key);
      } else {
        var j :| 0 <= j < |promises| && Binds(promises[j], key);
        PromisesFromAwaits(attrs, draws, j);
        var i :| 0 <= i < |attrs| && Plan(attrs[i], draws[i]) == Await(promises[j]);
        assert WritesKey(attrs[i], draws[i], key);
      }
    }
    if exists i :: 0 <= i < |attrs| && WritesKey(attrs[i], draws[i], key) {
      var i :| 0 <= i < |attrs| && WritesKey(attrs[i], draws[i], key);
      var act := Plan(attrs[i], draws[i]);
      if act.Write? && key == attrs[i].name {
        SyncKeysHoldWrites(attrs, draws, i);
      } else {
        AwaitsInPromises(attrs, draws, i);
        var j :| 0 <= j < |promises| && promises[j] == act.lookup;
        assert Binds(promises[j], key);
      }
    }
  }

  // ---------------------------------------------------------------------------
  // Attributes that are not required

  /** Removing an attribute that is not required changes neither the loop's record nor its queries. */
  lemma {:induction false} WithoutNotRequired(attrs: seq<Attribute>, draws: seq<Draws>, i: nat)
    requires AllValidDraws(attrs, draws)
    requires i < |attrs| && attrs[i].requiredLevel != Required
    ensures AllValidDraws(Without(attrs, i), Without(draws, i))
    ensures SyncRecord(Without(attrs, i), Without(draws, i)) == SyncRecord(attrs, draws)
    ensures Promises(Without(attrs, i), Without(draws, i)) == Promises(attrs, draws)
    decreases |attrs|
  {
    var n := |attrs| - 1;
    var attrs', draws' := Without(attrs, i), Without(draws, i);
    if i == n {
      assert attrs' == attrs[..n] && draws' == draws[..n];
    } else {
      WithoutNotRequired(attrs[..n], draws[..n], i);
      assert attrs'[..n - 1] == Without(attrs[..n], i);
      assert draws'[..n - 1] == Without(draws[..n], i);
      assert attrs'[n - 1] == attrs[n] && draws'[n - 1] == draws[n];
    }
  }

  /** An attribute that is not required makes no difference to the submitted record. */
  lemma NotRequiredIgnored(attrs: seq<Attribute>, draws: seq<Draws>, i: nat)
    requires AllValidDraws(attrs, draws)
    requires i < |attrs| && attrs[i].requiredLevel != Required
    ensures AllValidDraws(Without(attrs, i), Without(draws, i))
    ensures SubmittedRecord(Without(attrs, i), Without(draws, i)) == SubmittedRecord(attrs, draws)
  {
    WithoutNotRequired(attrs, draws, i);
  }

  // ---------------------------------------------------------------------------
  // Values, for well-named attributes

  lemma LogicalNameHasNoAt(n: string)
    requires IsLogicalName(n)
    ensures '@' !in n
  {
  }

  lemma LogicalNameNoUpper(n: string)
    requires IsLogicalName(n)
    ensures NoUpperAscii(n)
  {
  }

  /** Settling never touches a key without `@`, and every binding key has one. */
  lemma {:induction false} SettleAllKeepsNames(record: map<string, Value>, promises: seq<Pending>, key: string)
    requires '@' !in key
    ensures key in SettleAll(record, promises) <==> key in record
    ensures key in record ==> SettleAll(record, promises)[key] == record[key]
    decreases |promises|
  {
    if promises != [] {
      var n := |promises| - 1;
      SettleAllKeepsNames(record, promises[..n], key);
      BindingKeyHasAt(promises[n].attrName);
    }
  }

  /** With distinct names, the loop leaves each direct write's value under the attribute's name. */
  lemma {:induction false} SyncValue(attrs: seq<Attribute>, draws: seq<Draws>, i: nat)
    requires AllValidDraws(attrs, draws) && WellNamed(attrs)
    requires i < |attrs| && Plan(attrs[i], draws[i]).Write?
    ensures attrs[i].name in SyncRecord(attrs, draws)
    ensures SyncRecord(attrs, draws)[attrs[i].name] == Plan(attrs[i], draws[i]).value
    decreases |attrs|
  {
    var n := |attrs| - 1;
    if i < n {
      assert attrs[..n][i] == attrs[i] && draws[..n][i] == draws[i];
      SyncValue(attrs[..n], draws[..n], i);
    }
  }

  /**
    A required attribute of a plain type ends up in the submitted record under
    its own name, with the value its plan chose.
  */
  lemma PlainValueSubmitted(attrs: seq<Attribute>, draws: seq<Draws>, i: nat)
    requires AllValidDraws(attrs, draws) && WellNamed(attrs)
    requires i < |attrs| && Plan(attrs[i], draws[i]).Write?
    ensures attrs[i].name in SubmittedRecord(attrs, draws)
    ensures SubmittedRecord(attrs, draws)[attrs[i].name] == Plan(attrs[i], draws[i]).value
  {
    SyncValue(attrs, draws, i);
    LogicalNameHasNoAt(attrs[i].name);
    SettleAllKeepsNames(SyncRecord(attrs, draws), Promises(attrs, draws), attrs[i].name);
  }

  /** A lookup attribute's plain name never appears in the submitted record. */
  lemma LookupNeverUnderName(attrs: seq<Attribute>, draws: seq<Draws>, i: nat)
    requires AllValidDraws(attrs, draws) && WellNamed(attrs)
    requires i < |attrs| && attrs[i].attributeType == "lookup"
    ensures attrs[i].name !in SubmittedRecord(attrs, draws)
  {
    var name := attrs[i].name;
    LogicalNameHasNoAt(name);
    SettleAllKeepsNames(SyncRecord(attrs, draws), Promises(attrs, draws), name);
    if name in SyncRecord(attrs, draws) {
      SyncKeysFromWrites(attrs, draws, name);
      assert false;
    }
  }

  /**
    With distinct logical names, the binding key of a queried lookup whose query
    retrieved a record holds the reference to the first retrieved record, after
    settling on any record.
  */
  lemma {:induction false} SettledLookupValue(attrs: seq<Attribute>, draws: seq<Draws>, i: nat, record: map<string, Value>)
    requires AllValidDraws(attrs, draws) && WellNamed(attrs)
    requires i < |attrs| && Plan(attrs[i], draws[i]).Await? && Settles(Plan(attrs[i], draws[i]).lookup)
    ensures FormatLookupBindingKey(attrs[i].name) in SettleAll(record, Promises(attrs, draws))
    ensures SettleAll(record, Promises(attrs, draws))[FormatLookupBindingKey(attrs[i].name)]
         == LookupReference(Plan(attrs[i], draws[i]).lookup)
    decreases |attrs|
  {
    var n := |attrs| - 1;
    var key := FormatLookupBindingKey(attrs[i].name);
    var prior := Promises(attrs[..n], draws[..n]);
    var before := SettleAll(record, prior);
    var last := Plan(attrs[n], draws[n]);
    if i == n {
      SettleAllSnoc(record, prior, last.lookup);
      SettleWrites(before, last.lookup);
    } else {
      assert attrs[..n][i] == attrs[i] && draws[..n][i] == draws[i];
      SettledLookupValue(attrs[..n], draws[..n], i, record);
      if last.Await? {
        SettleAllSnoc(record, prior, last.lookup);
        LogicalNameNoUpper(attrs[i].name);
        LogicalNameNoUpper(attrs[n].name);
        if key == FormatLookupBindingKey(attrs[n].name) {
          BindingKeyInjective(attrs[i].name, attrs[n].name);
        }
        SettleKeepsOther(before, last.lookup, key);
      } else {
        assert Promises(attrs, draws) == prior;
      }
    }
  }

  /** A settled query writes its reference under the binding key of its attribute. */
  lemma SettleWrites(record: map<string, Value>, p: Pending)
    requires Settles(p)
    ensures FormatLookupBindingKey(p.attrName) in Settle(record, p)
    ensures Settle(record, p)[FormatLookupBindingKey(p.attrName)] == LookupReference(p)
  {
  }

  /** Settling a query leaves every other key as it was. */
  lemma SettleKeepsOther(record: map<string, Value>, p: Pending, key: string)
    requires !Binds(p, key)
    ensures key in Settle(record, p) <==> key in record
    ensures key in record ==> Settle(record, p)[key] == record[key]
  {
  }

  /**
    A required lookup that is not owner-related, knows its entity types and
    whose query retrieved a record is bound in the submitted record under its
    binding key, to `/<first entity type>s(<id of the first retrieved record>)`.
  */
  lemma LookupValueSubmitted(attrs: seq<Attribute>, draws: seq<Draws>, i: nat)
    requires AllValidDraws(attrs, draws) && WellNamed(attrs)
    requires i < |attrs|
    requires attrs[i].requiredLevel == Required && attrs[i].attributeType == "lookup"
    requires !IsOwnerLookup(attrs[i]) && |LookupEntityTypes(attrs[i])| > 0
    requires draws[i].query.Retrieved? && |draws[i].query.ids| > 0
    ensures var key := FormatLookupBindingKey(attrs[i].name);
      && key in SubmittedRecord(attrs, draws)
      && SubmittedRecord(attrs, draws)[key]
         == Text("/" + LookupEntityTypes(attrs[i])[0] + "s(" + draws[i].query.ids[0] + ")")
  {
    SettledLookupValue(attrs, draws, i, SyncRecord(attrs, draws));
  }

  // ---------------------------------------------------------------------------
  // The order in which queries settle

  /** Two settled queries that bind the same key. */
  predicate SameBinding(p: Pending, q: Pending)
  {
    Settles(p) && Settles(q) && FormatLookupBindingKey(p.attrName) == FormatLookupBindingKey(q.attrName)
  }

  /** Settled queries among `promises` that bind the same key write the same reference. */
  predicate Agree(promises: seq<Pending>)
  {
    forall p, q :: p in promises && q in promises && SameBinding(p, q) ==> LookupReference(p) == LookupReference(q)
  }

  /** When the queries agree, each settled one leaves its reference under its binding key. */
  lemma {:induction false} SettleAllBound(record: map<string, Value>, promises: seq<Pending>, p: Pending)
    requires Agree(promises) && p in promises && Settles(p)
    ensures FormatLookupBindingKey(p.attrName) in SettleAll(record, promises)
    ensures SettleAll(record, promises)[FormatLookupBindingKey(p.attrName)] == LookupReference(p)
    decreases |promises|
  {
    var n := |promises| - 1;
    var prior, last := promises[..n], promises[n];
    var key := FormatLookupBindingKey(p.attrName);
    assert promises == prior + [last];
    if Settles(last) && FormatLookupBindingKey(last.attrName) == key {
      assert SameBinding(p, last);
      SettleWrites(SettleAll(record, prior), last);
    } else {
      assert p in prior;
      assert Agree(prior) by {
        forall x, y | x in prior && y in prior && SameBinding(x, y)
          ensures LookupReference(x) == LookupReference(y)
        {
          assert x in promises && y in promises;
        }
      }
      SettleAllBound(record, prior, p);
      SettleKeepsOther(SettleAll(record, prior), last, key);
    }
  }

  /** A key that no settled query binds keeps its value from the record settling starts from. */
  lemma {:induction false} SettleAllUnbound(record: map<string, Value>, promises: seq<Pending>, key: string)
    requires !BindsKey(promises, key)
    ensures key in SettleAll(record, promises) <==> key in record
    ensures key in record ==> SettleAll(record, promises)[key] == record[key]
    decreases |promises|
  {
    if promises != [] {
      var n := |promises| - 1;
      BindsKeyLast(promises, key);
      SettleAllUnbound(record, promises[..n], key);
      SettleKeepsOther(SettleAll(record, promises[..n]), promises[n], key);
    }
  }

  /** A key bound by some query of `some` is bound by `all` when `all` holds every query of `some`. */
  lemma BindsKeyAmong(some: seq<Pending>, all: seq<Pending>, key: string)
    requires forall x :: x in some ==> x in all
    ensures BindsKey(some, key) ==> BindsKey(all, key)
  {
    if BindsKey(some, key) {
      var j :| 0 <= j < |some| && Binds(some[j], key);
      assert some[j] in all;
      var k :| 0 <= k < |all| && all[k] == some[j];
    }
  }

  /**
    When the queries agree, the order in which they settle does not matter:
    any reordering of them gives the same record.
  */
  lemma SettleOrderIrrelevant(record: map<string, Value>, promises: seq<Pending>, reordered: seq<Pending>)
    requires multiset(reordered) == multiset(promises)
    requires Agree(promises)
    ensures SettleAll(record, reordered) == SettleAll(record, promises)
  {
    forall x | true
      ensures x in promises <==> x in reordered
    {
      assert x in promises <==> x in multiset(promises);
      assert x in reordered <==> x in multiset(reordered);
    }
    var a, b := SettleAll(record, promises), SettleAll(record, reordered);
    forall key | true
      ensures (key in a <==> key in b) && (key in a ==> a[key] == b[key])
    {
      if BindsKey(promises, key) {
        var j :| 0 <= j < |promises| && Binds(promises[j], key);
        SettleAllBound(record, promises, promises[j]);
        SettleAllBound(record, reordered, promises[j]);
      } else {
        BindsKeyAmong(reordered, promises, key);
        SettleAllUnbound(record, promises, key);
        SettleAllUnbound(record, reordered, key);
      }
    }
    assert a == b;
  }

  /** With distinct logical names, the queries the loop starts agree. */
  lemma PromisesAgree(attrs: seq<Attribute>, draws: seq<Draws>)
    requires AllValidDraws(attrs, draws) && WellNamed(attrs)
    ensures Agree(Promises(attrs, draws))
  {
    var promises := Promises(attrs, draws);
    forall p, q | p in promises && q in promises && SameBinding(p, q)
      ensures LookupReference(p) == LookupReference(q)
    {
      var jp :| 0 <= jp < |promises| && promises[jp] == p;
      var jq :| 0 <= jq < |promises| && promises[jq] == q;
      PromisesFromAwaits(attrs, draws, jp);
      PromisesFromAwaits(attrs, draws, jq);
      var ip :| 0 <= ip < |attrs| && Plan(attrs[ip], draws[ip]) == Await(p);
      var iq :| 0 <= iq < |attrs| && Plan(attrs[iq], draws[iq]) == Await(q);
      LogicalNameNoUpper(attrs[ip].name);
      LogicalNameNoUpper(attrs[iq].name);
      BindingKeyInjective(attrs[ip].name, attrs[iq].name);
    }
  }

  /**
    With distinct logical names, settling the loop's queries in any order
    gives the record that is submitted.
  */
  lemma SubmittedInAnyOrder(attrs: seq<Attribute>, draws: seq<Draws>, settled: seq<Pending>)
    requires AllValidDraws(attrs, draws) && WellNamed(attrs)
    requires multiset(settled) == multiset(Promises(attrs, draws))
    ensures SettleAll(SyncRecord(attrs, draws), settled) == SubmittedRecord(attrs, draws)
  {
    PromisesAgree(attrs, draws);
    SettleOrderIrrelevant(SyncRecord(attrs, draws), Promises(attrs, draws), settled);
  }
}
