/** The raw materials of a venue, a table that both recoveries read and update. */
module Materials {
  import opened Units

  datatype Material = Material(id: nat, venue: nat, active: bool, deleted: bool, unit: Unit, stock: real, cost: real, avgCost: real)

  predicate IsLive(m: Material, venue: nat) {
    m.venue == venue && m.active && !m.deleted
  }

  predicate HasMaterial(ms: seq<Material>, id: nat) {
    exists k | 0 <= k < |ms| :: ms[k].id == id
  }

  function MaterialOf(ms: seq<Material>, id: nat): (m: Material)
    requires HasMaterial(ms, id)
    ensures m in ms && m.id == id
  {
    if ms[0].id == id then ms[0] else MaterialOf(ms[1..], id)
  }

  /** Primary keys. */
  ghost predicate UniqueMaterials(ms: seq<Material>) {
    forall i, j :: 0 <= i < j < |ms| ==> ms[i].id != ms[j].id
  }

  /** The lookup by key finds the only row with that key. */
  lemma MaterialIsOnly(ms: seq<Material>, m: Material)
    requires UniqueMaterials(ms) && m in ms
    ensures HasMaterial(ms, m.id) && MaterialOf(ms, m.id) == m
  {
    var k :| 0 <= k < |ms| && ms[k] == m;
    assert ms[k].id == m.id;
    var found := MaterialOf(ms, m.id);
    var l :| 0 <= l < |ms| && ms[l] == found;
  }
}
