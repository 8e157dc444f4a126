/** Parsed JSON, as Go's `any`, and edits of an object at a path of keys. */
module JsonTree {
  import opened Sequences

  datatype Option<+T> = None | Some(value: T)

  datatype Json =
    | JNull
    | JBool(b: bool)
    | JNum(n: real)
    | JStr(s: string)
    | JArr(items: seq<Json>)
    | JObj(fields: map<string, Json>)

  type JsonObject = map<string, Json>
  type Path = p: seq<string> | p != [] witness [""]

  function Strings(ss: seq<string>): seq<Json> {
    seq(|ss|, i requires 0 <= i < |ss| => JStr(ss[i]))
  }

  /** The value at `p`, if objects lead all the way there. */
  function Lookup(t: JsonObject, p: Path): Option<Json>
    decreases |p|
  {
    if p[0] !in t then None
    else if |p| == 1 then Some(t[p[0]])
    else if t[p[0]].JObj? then Lookup(t[p[0]].fields, p[1..])
    else None
  }

  /** The object under `key`, empty when there is none. */
  function Child(t: JsonObject, key: string): JsonObject {
    if key in t && t[key].JObj? then t[key].fields else map[]
  }

  /** Sets the value at `p`; anything on the way that is not an object becomes one. */
  function Put(t: JsonObject, p: Path, v: Json): JsonObject
    decreases |p|
  {
    if |p| == 1 then t[p[0] := v] else t[p[0] := JObj(Put(Child(t, p[0]), p[1..], v))]
  }

  /** Neither path leads through the other. */
  predicate Apart(p: Path, q: Path) {
    !(p <= q) && !(q <= p)
  }

  lemma ApartTail(p: Path, q: Path)
    requires Apart(p, q) && p[0] == q[0]
    ensures |p| > 1 && |q| > 1 && Apart(p[1..], q[1..])
  {
    assert p == [p[0]] + p[1..] && q == [q[0]] + q[1..];
  }

  lemma {:induction false} LookupPut(t: JsonObject, p: Path, v: Json)
    ensures Lookup(Put(t, p, v), p) == Some(v)
    decreases |p|
  {
    if |p| > 1 {
      LookupPut(Child(t, p[0]), p[1..], v);
    }
  }

  /** Setting one path leaves every path apart from it alone, whatever stood on the way. */
  lemma {:induction false} LookupPutApart(t: JsonObject, p: Path, v: Json, q: Path)
    requires Apart(p, q)
    ensures Lookup(Put(t, p, v), q) == Lookup(t, q)
    decreases |p|
  {
    if p[0] == q[0] {
      ApartTail(p, q);
      LookupPutApart(Child(t, p[0]), p[1..], v, q[1..]);
    }
  }

  /** A path that leads somewhere leads through objects. */
  lemma {:induction false} LookupAbove(t: JsonObject, p: Path, q: Path)
    requires Lookup(t, p).Some? && q < p
    ensures Lookup(t, q).Some? && Lookup(t, q).value.JObj?
    decreases |p|
  {
    assert q[0] == p[0];
    if |q| > 1 {
      assert q[1..] < p[1..];
      LookupAbove(t[p[0]].fields, p[1..], q[1..]);
    }
  }

  lemma {:induction false} PutSame(t: JsonObject, p: Path, v: Json)
    requires Lookup(t, p) == Some(v)
    ensures Put(t, p, v) == t
    decreases |p|
  {
    if |p| > 1 {
      PutSame(t[p[0]].fields, p[1..], v);
    }
  }

  /** What `Put` stores under the first key, given the object that was there. */
  function Under(c: JsonObject, p: Path, v: Json): Json {
    if |p| == 1 then v else JObj(Put(c, p[1..], v))
  }

  lemma PutIsUpdate(t: JsonObject, p: Path, v: Json)
    ensures Put(t, p, v) == t[p[0] := Under(Child(t, p[0]), p, v)]
  {
  }

  lemma PutSwapHeads(t: JsonObject, p: Path, v: Json, q: Path, w: Json)
    requires p[0] != q[0]
    ensures Put(Put(t, p, v), q, w) == Put(Put(t, q, w), p, v)
  {
    PutIsUpdate(t, p, v);
    PutIsUpdate(t, q, w);
    PutIsUpdate(Put(t, p, v), q, w);
    PutIsUpdate(Put(t, q, w), p, v);
    assert Child(Put(t, p, v), q[0]) == Child(t, q[0]);
    assert Child(Put(t, q, w), p[0]) == Child(t, p[0]);
  }

  lemma {:induction false} PutSwap(t: JsonObject, p: Path, v: Json, q: Path, w: Json)
    requires Apart(p, q)
    ensures Put(Put(t, p, v), q, w) == Put(Put(t, q, w), p, v)
    decreases |p|
  {
    if p[0] == q[0] {
      ApartTail(p, q);
      PutSwap(Child(t, p[0]), p[1..], v, q[1..], w);
      PutIsUpdate(t, p, v);
      PutIsUpdate(t, q, w);
      PutIsUpdate(Put(t, p, v), q, w);
      PutIsUpdate(Put(t, q, w), p, v);
    } else {
      PutSwapHeads(t, p, v, q, w);
    }
  }

  // ------------------------------------------------------------ many settings

  datatype Setting = Setting(path: Path, value: Json)

  /** One setting after the other. */
  function PutAll(t: JsonObject, settings: seq<Setting>): JsonObject {
    if settings == [] then t
    else
      var last := settings[|settings| - 1];
      Put(PutAll(t, settings[..|settings| - 1]), last.path, last.value)
  }

  ghost predicate SettingsApart(settings: seq<Setting>) {
    forall i, j :: 0 <= i < j < |settings| ==> Apart(settings[i].path, settings[j].path)
  }

  lemma PutAllAppend(t: JsonObject, settings: seq<Setting>, s: Setting)
    ensures PutAll(t, settings + [s]) == Put(PutAll(t, settings), s.path, s.value)
  {
    assert (settings + [s])[..|settings|] == settings;
  }

  /** Swapping the last two of a row of settings. */
  lemma PutAllSwap(t: JsonObject, settings: seq<Setting>, s: Setting, last: Setting)
    requires Apart(s.path, last.path)
    ensures Put(Put(PutAll(t, settings), s.path, s.value), last.path, last.value) ==
            Put(PutAll(t, settings + [last]), s.path, s.value)
  {
    PutAllAppend(t, settings, last);
    PutSwap(PutAll(t, settings), s.path, s.value, last.path, last.value);
  }

  /** A setting may be made after those that follow it. */
  lemma {:induction false} PutLast(t: JsonObject, before: seq<Setting>, s: Setting, behind: seq<Setting>)
    requires forall r :: r in behind ==> Apart(s.path, r.path)
    ensures PutAll(t, before + [s] + behind) == Put(PutAll(t, before + behind), s.path, s.value)
    decreases |behind|
  {
    if behind == [] {
      assert before + [s] + behind == before + [s] && before + behind == before;
      PutAllAppend(t, before, s);
    } else {
      var init, last := behind[..|behind| - 1], behind[|behind| - 1];
      assert last in behind && forall r :: r in init ==> r in behind;
      PutLast(t, before, s, init);
      PutAllSwap(t, before + init, s, last);
      assert before + [s] + behind == before + [s] + init + [last] && before + behind == before + init + [last];
      PutAllAppend(t, before + [s] + init, last);
    }
  }

  lemma ApartFrom(settings: seq<Setting>, i: nat)
    requires i < |settings| && SettingsApart(settings)
    ensures forall r :: r in settings[i + 1..] ==> Apart(settings[i].path, r.path)
  {
    forall r | r in settings[i + 1..] ensures Apart(settings[i].path, r.path) {
      var j :| i < j < |settings| && settings[j] == r;
    }
  }

  lemma ApartWithout(settings: seq<Setting>, i: nat)
    requires i < |settings| && SettingsApart(settings)
    ensures SettingsApart(settings[..i] + settings[i + 1..])
  {
    var others := settings[..i] + settings[i + 1..];
    forall j, k | 0 <= j < k < |others| ensures Apart(others[j].path, others[k].path) {
      assert others[j] == settings[if j < i then j else j + 1] && others[k] == settings[if k < i then k else k + 1];
    }
  }

  /** Settings at paths apart may be made in any order. */
  lemma {:induction false} PutAllIgnoresOrder(t: JsonObject, settings: seq<Setting>, order: seq<Setting>)
    requires SettingsApart(settings) && multiset(order) == multiset(settings)
    ensures PutAll(t, order) == PutAll(t, settings)
    decreases |order|
  {
    if order == [] {
      assert |multiset(settings)| == 0;
    } else {
      var n := |order| - 1;
      var i := LastInPermutation(order, settings);
      ApartWithout(settings, i);
      PutAllIgnoresOrder(t, settings[..i] + settings[i + 1..], order[..n]);
      ApartFrom(settings, i);
      PutLast(t, settings[..i], settings[i], settings[i + 1..]);
      assert settings == settings[..i] + [settings[i]] + settings[i + 1..];
    }
  }

  lemma LookupTwo(t: JsonObject, a: string, b: string)
    ensures Lookup(t, [a, b]) == if b in Child(t, a) then Some(Child(t, a)[b]) else None
  {
    assert [a, b][1..] == [b];
  }

  /** Making room for an object first does not change what is set in it. */
  lemma PutInRoom(t: JsonObject, a: string, b: string, v: Json)
    ensures Put(t[a := JObj(Child(t, a))], [a, b], v) == Put(t, [a, b], v)
    ensures b in Child(t, a) ==> t[a := JObj(Child(t, a))] == t
  {
    assert [a, b][1..] == [b];
  }
}
