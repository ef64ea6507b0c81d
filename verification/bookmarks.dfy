/** The bookmark store: per stream, a map from key to stored value. Instants
    are stored as text with a trailing "Z". */
module Bookmarks {
  import opened Base
  import opened Json
  import opened Errors
  import opened Clock

  type Bookmarks = map<string, map<string, Json>>

  /** The key read when the replication key holds nothing truthy, kept for
      state written by older versions. */
  const LegacyKey: string := "SystemModstamp"

  /** A value handed to `set_stream_state`: a datetime, or anything else. */
  datatype StateValue = Date(t: Instant) | Raw(j: Json)

  /** How a value is stored: a datetime as its text plus "Z", anything
      else as it is. */
  function Stored(v: StateValue): (j: Json)
    ensures v.Date? ==> j.Str? && |j.s| > 0 && j.s[|j.s| - 1] == 'Z' && j.s[..|j.s| - 1] == Format(v.t)
    ensures v.Raw? ==> j == v.j
  {
    match v
    case Date(t) => Str(Format(t) + "Z")
    case Raw(j) => j
  }

  /** `bookmarks.get(stream_id, {})`. */
  function Entry(st: Bookmarks, id: string): map<string, Json>
  {
    if id in st then st[id] else map[]
  }

  /** `State.set_stream_state`. */
  function SetStreamState(st: Bookmarks, id: string, key: string, v: StateValue): (r: Bookmarks)
    ensures id in r && key in r[id] && r[id][key] == Stored(v)
  {
    st[id := Entry(st, id)[key := Stored(v)]]
  }

  /** Setting a value touches no other key of the stream and no other stream. */
  lemma SetStreamStateFrame(st: Bookmarks, id: string, key: string, v: StateValue)
    ensures var r := SetStreamState(st, id, key, v);
            && (forall k :: k != key ==> (k in r[id] <==> k in Entry(st, id)))
            && (forall k :: k != key && k in r[id] ==> r[id][k] == Entry(st, id)[k])
            && (forall other :: other != id ==> (other in r <==> other in st))
            && (forall other :: other != id && other in r ==> r[other] == st[other])
  {
  }

  /** `State.get_stream_state`: the value under the replication key, or
      under the legacy key when that is falsy; nothing when neither is
      truthy; otherwise the text without its last character, parsed. A
      replication key of `None` reads as missing. */
  function GetStreamState(st: Bookmarks, id: string, rk: Option<string>): (r: Result<Option<Instant>>)
    ensures r.Err? ==> r.error == Python(ValueError) || r.error == Python(TypeError)
    ensures r == Ok(None)
        <==> (rk.None? || !Truthy(Get(Entry(st, id), rk.value))) && !Truthy(Get(Entry(st, id), LegacyKey))
  {
    var e := Entry(st, id);
    var primary := if rk.Some? then Get(e, rk.value) else Null;
    var chosen := if Truthy(primary) then primary else Get(e, LegacyKey);
    if !Truthy(chosen) then Ok(None)
    else match chosen
      case Str(s) =>
        (match Parse(s[..|s| - 1])
         case Some(t) => Ok(Some(t))
         case None => Err(Python(ValueError)))
      case _ => Err(Python(TypeError))
  }

  /** A later value under the same key replaces an earlier one. */
  lemma SetStreamStateOverwrites(st: Bookmarks, id: string, key: string, a: StateValue, b: StateValue)
    ensures SetStreamState(SetStreamState(st, id, key, a), id, key, b) == SetStreamState(st, id, key, b)
  {
    var e := Entry(st, id);
    var once := SetStreamState(st, id, key, a);
    assert Entry(once, id) == e[key := Stored(a)];
    assert e[key := Stored(a)][key := Stored(b)] == e[key := Stored(b)];
    assert once[id := e[key := Stored(b)]] == st[id := e[key := Stored(b)]];
  }

  /** Setting a value twice is setting it once. */
  lemma SetStreamStateIdempotent(st: Bookmarks, id: string, key: string, v: StateValue)
    ensures SetStreamState(SetStreamState(st, id, key, v), id, key, v) == SetStreamState(st, id, key, v)
  {
    SetStreamStateOverwrites(st, id, key, v, v);
  }

  /** A stored instant reads back as itself: the appended "Z" is exactly
      the character the reader drops. */
  lemma GetAfterSetDate(st: Bookmarks, id: string, key: string, t: Instant)
    ensures GetStreamState(SetStreamState(st, id, key, Date(t)), id, Some(key)) == Ok(Some(t))
  {
    ParseFormat(t);
  }

  /** Setting one stream's value does not change what another stream, or
      another key of the same stream, reads. */
  lemma GetAfterSetElsewhere(st: Bookmarks, id: string, key: string, v: StateValue, id': string, rk: Option<string>)
    requires id' != id || (rk != Some(key) && key != LegacyKey)
    ensures GetStreamState(SetStreamState(st, id, key, v), id', rk) == GetStreamState(st, id', rk)
  {
    var st' := SetStreamState(st, id, key, v);
    if id' == id {
      assert Entry(st', id') == Entry(st, id')[key := Stored(v)];
    } else {
      assert Entry(st', id') == Entry(st, id');
    }
    GetReadsTwoKeys(st', st, id', rk);
  }

  /** The reader looks at the replication key and the legacy key only. */
  lemma GetReadsTwoKeys(a: Bookmarks, b: Bookmarks, id: string, rk: Option<string>)
    requires rk.Some? ==> Get(Entry(a, id), rk.value) == Get(Entry(b, id), rk.value)
    requires Get(Entry(a, id), LegacyKey) == Get(Entry(b, id), LegacyKey)
    ensures GetStreamState(a, id, rk) == GetStreamState(b, id, rk)
  {
  }

  /** When the replication key holds nothing truthy, the result is what
      the legacy key alone would give. */
  lemma GetFallsBackToLegacy(st: Bookmarks, id: string, rk: Option<string>)
    requires rk.None? || !Truthy(Get(Entry(st, id), rk.value))
    ensures GetStreamState(st, id, rk) == GetStreamState(st, id, Some(LegacyKey))
  {
  }

  /** When the replication key holds a truthy value, the legacy key is not read. */
  lemma GetPrefersReplicationKey(st: Bookmarks, id: string, rk: string)
    requires Truthy(Get(Entry(st, id), rk))
    ensures GetStreamState(st, id, Some(rk))
         == GetStreamState(map[id := map[rk := Get(Entry(st, id), rk)]], id, Some(rk))
  {
  }
}
