/** The manifest's episode table: one row for each episode id that a session carries, sorted. */
module EpisodeTables {
  import opened Records
  import opened Episodes
  import opened Corpus

  ghost predicate Rising(rules: Rules, ids: seq<EpisodeId>) {
    forall i, j :: 0 <= i < j < |ids| ==> rules.place(ids[i]) < rules.place(ids[j])
  }

  /** Some id of the list has this string. */
  ghost predicate Placed(rules: Rules, ids: seq<EpisodeId>, place: nat) {
    exists k :: 0 <= k < |ids| && rules.place(ids[k]) == place
  }

  ghost predicate Carried(sessions: seq<ManifestSession>, id: EpisodeId) {
    exists k :: 0 <= k < |sessions| && sessions[k].episode == Some(id)
  }

  lemma {:induction false} PlaceIdHolds(rules: Rules, id: EpisodeId, ids: seq<EpisodeId>)
    requires Rising(rules, ids)
    ensures Rising(rules, PlaceId(rules, id, ids))
    ensures forall p :: Placed(rules, PlaceId(rules, id, ids), p) <==> Placed(rules, ids, p) || p == rules.place(id)
    ensures forall x :: x in PlaceId(rules, id, ids) ==> x in ids || x == id
  {
    var r := PlaceId(rules, id, ids);
    if ids == [] || rules.place(id) < rules.place(ids[0]) {
      assert forall k :: 0 < k < |r| ==> r[k] == ids[k - 1];
      PlacedCons(rules, id, ids);
    } else if rules.place(id) != rules.place(ids[0]) {
      var rest := PlaceId(rules, id, ids[1..]);
      PlaceIdHolds(rules, id, ids[1..]);
      assert ids == [ids[0]] + ids[1..];
      PlacedCons(rules, ids[0], ids[1..]);
      PlacedCons(rules, ids[0], rest);
      forall j | 0 <= j < |rest|
        ensures rules.place(ids[0]) < rules.place(rest[j])
      {
        assert rest[j] in ids[1..] || rest[j] == id;
      }
    }
  }

  lemma PlacedCons(rules: Rules, id: EpisodeId, ids: seq<EpisodeId>)
    ensures forall p :: Placed(rules, [id] + ids, p) <==> p == rules.place(id) || Placed(rules, ids, p)
  {
    forall p
      ensures Placed(rules, [id] + ids, p) <==> p == rules.place(id) || Placed(rules, ids, p)
    {
      if p == rules.place(id) {
        assert rules.place(([id] + ids)[0]) == p;
      }
      if Placed(rules, ids, p) {
        var k :| 0 <= k < |ids| && rules.place(ids[k]) == p;
        assert ([id] + ids)[k + 1] == ids[k];
      }
    }
  }

  lemma CarriedLast(sessions: seq<ManifestSession>)
    requires sessions != []
    ensures var n := |sessions| - 1;
            forall id :: Carried(sessions, id) <==> Carried(sessions[..n], id) || sessions[n].episode == Some(id)
  {
    var n := |sessions| - 1;
    forall id
      ensures Carried(sessions, id) <==> Carried(sessions[..n], id) || sessions[n].episode == Some(id)
    {
      if Carried(sessions[..n], id) {
        var k :| 0 <= k < n && sessions[..n][k].episode == Some(id);
        assert sessions[k].episode == Some(id);
      }
      if Carried(sessions, id) {
        var k :| 0 <= k < |sessions| && sessions[k].episode == Some(id);
        assert k < n ==> sessions[..n][k].episode == Some(id);
      }
    }
  }

  lemma {:induction false} IdsHold(rules: Rules, sessions: seq<ManifestSession>)
    ensures Rising(rules, EpisodeIds(rules, sessions))
    ensures forall id :: id in EpisodeIds(rules, sessions) ==> Carried(sessions, id)
    ensures forall id :: Carried(sessions, id) ==> Placed(rules, EpisodeIds(rules, sessions), rules.place(id))
  {
    if sessions != [] {
      var n := |sessions| - 1;
      var before, last := EpisodeIds(rules, sessions[..n]), sessions[n].episode;
      IdsHold(rules, sessions[..n]);
      CarriedLast(sessions);
      hide Carried, Placed, Rising, PlaceId;
      if last.Some? {
        PlaceIdHolds(rules, last.value, before);
      }
    }
  }

  /** The table is sorted and unique; each row is of an id that some session carries, and each such id
      has its row. */
  lemma TableHolds(rules: Rules, sessions: seq<ManifestSession>, events: seq<Event>)
    ensures var table := EpisodeTable(rules, sessions, events);
            && IdsRising(rules, table)
            && (forall k :: 0 <= k < |table| ==> Carried(sessions, table[k].id))
            && (forall id :: Carried(sessions, id) ==>
                  exists k :: 0 <= k < |table| && rules.place(table[k].id) == rules.place(id))
  {
    IdsHold(rules, sessions);
    var ids, table := EpisodeIds(rules, sessions), EpisodeTable(rules, sessions, events);
    forall id | Carried(sessions, id)
      ensures exists k :: 0 <= k < |table| && rules.place(table[k].id) == rules.place(id)
    {
      var k :| 0 <= k < |ids| && rules.place(ids[k]) == rules.place(id);
      assert rules.place(table[k].id) == rules.place(id);
    }
  }
}
