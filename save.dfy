/** The merge rule of `loadGame`: a saved snapshot, once parsed, is laid
    over the default state with object spread, one level deeper for
    `achievements` and `player`, and two levels deeper for `player.tools`,
    so that fields added to the game after a save was written keep their
    defaults. Storage and the JSON text are outside the model: the stored
    string is given as already parsed, or as unparsable. */
module Save {
  import opened Keys

  /** A parsed JSON value. Numbers are whole numbers in this model. */
  datatype Json =
    | JNull
    | JBool(b: bool)
    | JNum(n: int)
    | JStr(s: string)
    | JArr(items: seq<Json>)
    | JObj(fields: map<string, Json>)

  /** Two different indices never print the same. */
  lemma NatToStringInjective()
    ensures forall a: nat, b: nat :: NatToString(a) == NatToString(b) ==> a == b
  {
    forall a: nat, b: nat | NatToString(a) == NatToString(b) ensures a == b {
      ParseNatToString(a);
      ParseNatToString(b);
    }
  }

  /** The own enumerable properties that `...j` copies: the fields of an
      object, the indices of an array or of a string (each character as a
      one-character string), and nothing for null, booleans and numbers. */
  function Fields(j: Json): (m: map<string, Json>)
    ensures j.JObj? ==> m == j.fields
    ensures j.JNull? || j.JBool? || j.JNum? ==> m == map[]
  {
    NatToStringInjective();
    match j
    case JObj(fs) => fs
    case JArr(xs) =>
      map i: nat | i < |xs| :: NatToString(i) := xs[i]
    case JStr(s) => map i: nat | i < |s| :: NatToString(i) := JStr([s[i]])
    case _ => map[]
  }

  /** `j.k`, with a missing property read as null (the source reads it as
      undefined, which every use below treats as null does). */
  function Get(j: Json, k: string): (v: Json)
    ensures k in Fields(j) ==> v == Fields(j)[k]
    ensures k !in Fields(j) ==> v == JNull
  {
    if k in Fields(j) then Fields(j)[k] else JNull
  }

  const ACHIEVEMENTS: string := "achievements"
  const PLAYER: string := "player"
  const TOOLS: string := "tools"

  /** `{...a, ...b}`: every field of b, and the fields of a that b lacks. */
  function Spread(a: Json, b: Json): (m: map<string, Json>)
    ensures m.Keys == Fields(a).Keys + Fields(b).Keys
    ensures forall k :: k in Fields(b) ==> m[k] == Fields(b)[k]
    ensures forall k :: k in Fields(a) && k !in Fields(b) ==> m[k] == Fields(a)[k]
  {
    Fields(a) + Fields(b)
  }

  /** The state `loadGame` builds from the current state `cur` and the
      parsed snapshot `loaded`. */
  function Merge(cur: Json, loaded: Json): (r: Json) {
    var achievements := Spread(Get(cur, ACHIEVEMENTS), Get(loaded, ACHIEVEMENTS));
    var tools := Spread(Get(Get(cur, PLAYER), TOOLS), Get(Get(loaded, PLAYER), TOOLS));
    var player := Spread(Get(cur, PLAYER), Get(loaded, PLAYER))[TOOLS := JObj(tools)];
    JObj(Spread(cur, loaded)[ACHIEVEMENTS := JObj(achievements)][PLAYER := JObj(player)])
  }

  /** The top level of a merge: the fields of both, with `achievements` and
      `player` always present. Other fields come from the snapshot when it
      has them, and keep their current value when it does not; the
      achievement counters are merged field by field. */
  lemma MergeTop(cur: Json, loaded: Json)
    ensures var r := Merge(cur, loaded);
      && r.JObj?
      && r.fields.Keys == Fields(cur).Keys + Fields(loaded).Keys + {ACHIEVEMENTS, PLAYER}
      && (forall k :: k in Fields(loaded) && k != ACHIEVEMENTS && k != PLAYER ==>
            r.fields[k] == Fields(loaded)[k])
      && (forall k :: k in Fields(cur) && k !in Fields(loaded) && k != ACHIEVEMENTS && k != PLAYER ==>
            r.fields[k] == Fields(cur)[k])
      && r.fields[ACHIEVEMENTS] == JObj(Spread(Get(cur, ACHIEVEMENTS), Get(loaded, ACHIEVEMENTS)))
  {
    var s := Spread(cur, loaded);
    var a := JObj(Spread(Get(cur, ACHIEVEMENTS), Get(loaded, ACHIEVEMENTS)));
    var m := Merge(cur, loaded).fields;
    assert m == s[ACHIEVEMENTS := a][PLAYER := m[PLAYER]];
    Overlay(s, a, m[PLAYER], m);
    MergeKept(s, cur, loaded, m);
  }

  /** The fields the overlay leaves alone are those of the spread. */
  lemma MergeKept(s: map<string, Json>, cur: Json, loaded: Json, m: map<string, Json>)
    requires s == Spread(cur, loaded)
    requires forall k :: k in s && k != ACHIEVEMENTS && k != PLAYER ==> k in m && m[k] == s[k]
    ensures forall k :: k in Fields(loaded) && k != ACHIEVEMENTS && k != PLAYER ==>
      k in m && m[k] == Fields(loaded)[k]
    ensures forall k :: k in Fields(cur) && k !in Fields(loaded) && k != ACHIEVEMENTS && k != PLAYER ==>
      k in m && m[k] == Fields(cur)[k]
  {
  }

  /** Setting the two merged fields over a map: both are present, and every
      other field is the map's. */
  lemma Overlay(s: map<string, Json>, a: Json, p: Json, m: map<string, Json>)
    requires m == s[ACHIEVEMENTS := a][PLAYER := p]
    ensures m.Keys == s.Keys + {ACHIEVEMENTS, PLAYER}
    ensures forall k :: k in s && k != ACHIEVEMENTS && k != PLAYER ==> k in m && m[k] == s[k]
  {
  }

  /** The player of a merge: merged field by field, and its tools field by
      field inside it. */
  lemma MergePlayer(cur: Json, loaded: Json)
    ensures var r := Merge(cur, loaded);
      && r.JObj? && PLAYER in r.fields && r.fields[PLAYER].JObj?
      && (forall k :: k != TOOLS ==>
            (k in r.fields[PLAYER].fields <==> k in Spread(Get(cur, PLAYER), Get(loaded, PLAYER))))
      && (forall k :: k != TOOLS && k in r.fields[PLAYER].fields ==>
            r.fields[PLAYER].fields[k] == Spread(Get(cur, PLAYER), Get(loaded, PLAYER))[k])
      && TOOLS in r.fields[PLAYER].fields
      && r.fields[PLAYER].fields[TOOLS]
         == JObj(Spread(Get(Get(cur, PLAYER), TOOLS), Get(Get(loaded, PLAYER), TOOLS)))
  {
  }

  /** What localStorage held: nothing, a string JSON.parse rejects, or a
      parsed value. */
  datatype Stored = Nothing | Malformed | Parsed(value: Json)

  /** The result of `loadGame`: a fresh world (`initWorld`) or a merged
      state. */
  datatype Loaded = Fresh | Restored(state: Json)

  /** `loadGame`: no save and an unparsable save start a fresh world; so does
      a save that parses to null, as reading its achievements throws. Any
      other parsed value is merged over the current state. */
  function Load(cur: Json, stored: Stored): (r: Loaded)
    ensures r.Fresh? <==> stored.Nothing? || stored.Malformed? || stored == Parsed(JNull)
    ensures r.Restored? ==> r.state == Merge(cur, stored.value)
  {
    match stored
    case Nothing => Fresh
    case Malformed => Fresh
    case Parsed(JNull) => Fresh
    case Parsed(j) => Restored(Merge(cur, j))
  }

  /** Every field of `a` is also a field of `b`. */
  predicate HasAllFields(a: Json, b: Json) {
    Fields(a).Keys <= Fields(b).Keys
  }

  /** A snapshot is complete for a current state when it is an object with
      every top-level field of that state, object-valued achievements and
      player, and, at each merged level, every field the state has there. */
  predicate Complete(cur: Json, snap: Json) {
    && snap.JObj?
    && HasAllFields(cur, snap)
    && ACHIEVEMENTS in snap.fields && snap.fields[ACHIEVEMENTS].JObj?
    && HasAllFields(Get(cur, ACHIEVEMENTS), snap.fields[ACHIEVEMENTS])
    && PLAYER in snap.fields && snap.fields[PLAYER].JObj?
    && HasAllFields(Get(cur, PLAYER), snap.fields[PLAYER])
    && TOOLS in snap.fields[PLAYER].fields && snap.fields[PLAYER].fields[TOOLS].JObj?
    && HasAllFields(Get(Get(cur, PLAYER), TOOLS), snap.fields[PLAYER].fields[TOOLS])
  }

  /** Spreading an object over a value whose fields it all has gives the
      object's own fields. */
  lemma SpreadOverAll(a: Json, b: Json)
    requires b.JObj? && HasAllFields(a, b)
    ensures Spread(a, b) == b.fields
  {
  }

  /** Loading a complete snapshot restores it exactly: the defaults fill
      nothing in and override nothing. */
  lemma LoadCompleteSnapshot(cur: Json, snap: Json)
    requires Complete(cur, snap)
    ensures Load(cur, Parsed(snap)) == Restored(snap)
  {
    var r := Merge(cur, snap);
    var p := snap.fields[PLAYER];
    var t := p.fields[TOOLS];
    SpreadOverAll(Get(Get(cur, PLAYER), TOOLS), t);
    SpreadOverAll(Get(cur, PLAYER), p);
    SpreadOverAll(Get(cur, ACHIEVEMENTS), snap.fields[ACHIEVEMENTS]);
    SpreadOverAll(cur, snap);
    assert Spread(Get(cur, PLAYER), p)[TOOLS := JObj(t.fields)] == p.fields;
    assert Spread(cur, snap)[ACHIEVEMENTS := snap.fields[ACHIEVEMENTS]][PLAYER := p] == snap.fields;
  }

  /** A snapshot written before a counter existed (here: one whose
      achievements lack the field `k`) loads with that counter at its current
      value, and keeps the counters it has. */
  lemma MissingCounterTakesDefault(cur: Json, snap: Json, k: string, k': string)
    requires snap.JObj? && ACHIEVEMENTS in snap.fields && snap.fields[ACHIEVEMENTS].JObj?
    requires k in Fields(Get(cur, ACHIEVEMENTS)) && k !in snap.fields[ACHIEVEMENTS].fields
    requires k' in snap.fields[ACHIEVEMENTS].fields
    ensures var r := Load(cur, Parsed(snap));
      && r.Restored?
      && r.state.fields[ACHIEVEMENTS].fields[k] == Fields(Get(cur, ACHIEVEMENTS))[k]
      && r.state.fields[ACHIEVEMENTS].fields[k'] == snap.fields[ACHIEVEMENTS].fields[k']
  {
    MergeTop(cur, snap);
  }
}
