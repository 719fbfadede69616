/** The integration's tank-shape tables: device code to shape name, its reverse, and the form choices. */
module TankShapes {
  import opened ApiConst

  /** `dict(items)`: building a dict from key/value pairs, a later pair overriding an earlier one. */
  function DictOf<K, V>(items: seq<(K, V)>): (d: map<K, V>)
    ensures d.Keys == set i | 0 <= i < |items| :: items[i].0
    decreases |items|
  {
    if items == [] then map[]
    else
      var last := items[|items| - 1];
      var d := DictOf(items[..|items| - 1]);
      assert forall i :: 0 <= i < |items| - 1 ==> items[..|items| - 1][i] == items[i];
      d[last.0 := last.1]
  }

  /** `{v: k for k, v in items}`: the dict with keys and values swapped, a later pair winning. */
  function Inverted<K, V>(items: seq<(K, V)>): (d: map<V, K>)
    ensures d.Keys == set i | 0 <= i < |items| :: items[i].1
    decreases |items|
  {
    if items == [] then map[]
    else
      var last := items[|items| - 1];
      var d := Inverted(items[..|items| - 1]);
      assert forall i :: 0 <= i < |items| - 1 ==> items[..|items| - 1][i] == items[i];
      d[last.1 := last.0]
  }

  ghost predicate DistinctKeys<K, V>(items: seq<(K, V)>) {
    forall i, j :: 0 <= i < j < |items| ==> items[i].0 != items[j].0
  }

  ghost predicate DistinctValues<K, V>(items: seq<(K, V)>) {
    forall i, j :: 0 <= i < j < |items| ==> items[i].1 != items[j].1
  }

  /** With distinct keys, every pair survives in the dict. */
  lemma {:induction false} DictOfLookup<K, V>(items: seq<(K, V)>, i: nat)
    requires DistinctKeys(items) && i < |items|
    ensures items[i].0 in DictOf(items) && DictOf(items)[items[i].0] == items[i].1
    decreases |items|
  {
    if i < |items| - 1 {
      var front := items[..|items| - 1];
      assert front[i] == items[i];
      DictOfLookup(front, i);
    }
  }

  /** With distinct values, every pair survives, swapped, in the inverted dict. */
  lemma {:induction false} InvertedLookup<K, V>(items: seq<(K, V)>, i: nat)
    requires DistinctValues(items) && i < |items|
    ensures items[i].1 in Inverted(items) && Inverted(items)[items[i].1] == items[i].0
    decreases |items|
  {
    if i < |items| - 1 {
      var front := items[..|items| - 1];
      assert front[i] == items[i];
      InvertedLookup(front, i);
    }
  }

  /** When keys and values are both distinct, the inverted dict is a two-sided inverse of the dict. */
  lemma InvertedIsInverse<K, V>(items: seq<(K, V)>)
    requires DistinctKeys(items) && DistinctValues(items)
    ensures Inverted(items).Keys == DictOf(items).Values
    ensures forall k :: k in DictOf(items) ==> DictOf(items)[k] in Inverted(items) && Inverted(items)[DictOf(items)[k]] == k
    ensures forall v :: v in Inverted(items) ==> Inverted(items)[v] in DictOf(items) && DictOf(items)[Inverted(items)[v]] == v
  {
    var d, r := DictOf(items), Inverted(items);
    forall k | k in d
      ensures d[k] in r && r[d[k]] == k
    {
      var i :| 0 <= i < |items| && items[i].0 == k;
      DictOfLookup(items, i);
      InvertedLookup(items, i);
    }
    forall v | v in r
      ensures r[v] in d && d[r[v]] == v
    {
      var i :| 0 <= i < |items| && items[i].1 == v;
      DictOfLookup(items, i);
      InvertedLookup(items, i);
    }
    forall v | v in d.Values
      ensures v in r
    {
      var k :| k in d && d[k] == v;
    }
    forall v | v in r
      ensures v in d.Values
    {
      var i :| 0 <= i < |items| && items[i].1 == v;
      DictOfLookup(items, i);
    }
  }

  /** The entries of the shape table in source order; codes 4 to 6 are not offered yet. */
  const TANK_SHAPE_ITEMS: seq<(int, string)> := [
    (0, "Linear"),
    (1, "Rectangular"),
    (2, "Horizontal Cylindrical"),
    (3, "Vertical Cylindrical")
  ]

  /** Shape code reported by the device to the shape's name. */
  const TANK_SHAPE_MAP: map<int, string> := DictOf(TANK_SHAPE_ITEMS)

  /** Shape name back to the device's code. */
  const TANK_SHAPE_REVERSE_MAP: map<string, int> := Inverted(TANK_SHAPE_ITEMS)

  /** The options of the configuration form: each shape name maps to itself. */
  const TANK_SHAPE_CHOICES: map<string, string> := map[
    "Linear" := "Linear",
    "Rectangular" := "Rectangular",
    "Horizontal Cylindrical" := "Horizontal Cylindrical",
    "Vertical Cylindrical" := "Vertical Cylindrical"
  ]

  lemma ItemsDistinct()
    ensures DistinctKeys(TANK_SHAPE_ITEMS) && DistinctValues(TANK_SHAPE_ITEMS)
  {
    var t := TANK_SHAPE_ITEMS;
    assert t[0].1[0] == 'L' && t[1].1[0] == 'R' && t[2].1[0] == 'H' && t[3].1[0] == 'V';
  }

  /** The map covers codes 0 to 3 with four distinct names, each the value of a TankShape. */
  lemma TankShapeMapShape()
    ensures TANK_SHAPE_MAP.Keys == {0, 1, 2, 3}
    ensures forall a, b :: a in TANK_SHAPE_MAP && b in TANK_SHAPE_MAP && a != b ==> TANK_SHAPE_MAP[a] != TANK_SHAPE_MAP[b]
    ensures forall k :: k in TANK_SHAPE_MAP ==> exists s: TankShape :: s.Value() == TANK_SHAPE_MAP[k]
  {
    var t := TANK_SHAPE_ITEMS;
    ItemsDistinct();
    assert TANK_SHAPE_MAP.Keys == {t[0].0, t[1].0, t[2].0, t[3].0};
    forall i | 0 <= i < 4
      ensures TANK_SHAPE_MAP[t[i].0] == t[i].1
    {
      DictOfLookup(t, i);
    }
    assert TANK_SHAPE_MAP[0] == Linear.Value();
    assert TANK_SHAPE_MAP[1] == Rectangular.Value();
    assert TANK_SHAPE_MAP[2] == CylindricalH.Value();
    assert TANK_SHAPE_MAP[3] == CylindricalV.Value();
  }

  /** The reverse map is a two-sided inverse of the map. */
  lemma TankShapeReverseIsInverse()
    ensures TANK_SHAPE_REVERSE_MAP.Keys == TANK_SHAPE_MAP.Values
    ensures forall k :: k in TANK_SHAPE_MAP ==> TANK_SHAPE_MAP[k] in TANK_SHAPE_REVERSE_MAP && TANK_SHAPE_REVERSE_MAP[TANK_SHAPE_MAP[k]] == k
    ensures forall n :: n in TANK_SHAPE_REVERSE_MAP ==> TANK_SHAPE_REVERSE_MAP[n] in TANK_SHAPE_MAP && TANK_SHAPE_MAP[TANK_SHAPE_REVERSE_MAP[n]] == n
  {
    ItemsDistinct();
    InvertedIsInverse(TANK_SHAPE_ITEMS);
  }

  /** The form choices are exactly the shape names, each mapped to itself. */
  lemma TankShapeChoicesMatchMap()
    ensures TANK_SHAPE_CHOICES.Keys == TANK_SHAPE_MAP.Values
    ensures forall n :: n in TANK_SHAPE_CHOICES ==> TANK_SHAPE_CHOICES[n] == n
  {
    TankShapeReverseIsInverse();
    var t := TANK_SHAPE_ITEMS;
    assert TANK_SHAPE_REVERSE_MAP.Keys == {t[0].1, t[1].1, t[2].1, t[3].1};
  }
}
