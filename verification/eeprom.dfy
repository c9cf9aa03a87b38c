/**
 * The 16-bit configuration store behind `oscc_eeprom_read_u16` and
 * `oscc_eeprom_write_u16`: a cell per configuration identifier, with a
 * fixed value in cells never written (an erased EEPROM).
 */
module Eeprom {

  import opened Arduino
  import opened Wrappers

  datatype Store<K> = Store(cells: map<K, u16>, blank: u16)

  /** One `oscc_eeprom_write_u16(key, value)` call. */
  datatype Entry<K> = Entry(key: K, value: u16)

  /** `oscc_eeprom_read_u16`. */
  function Read<K>(st: Store<K>, k: K): u16
  {
    if k in st.cells then st.cells[k] else st.blank
  }

  /** `oscc_eeprom_write_u16`: the written cell reads back, every other cell is untouched. */
  function Write<K(!new)>(st: Store<K>, e: Entry<K>): (r: Store<K>)
    ensures Read(r, e.key) == e.value
    ensures forall j :: j != e.key ==> Read(r, j) == Read(st, j)
    ensures r.blank == st.blank
  {
    st.(cells := st.cells[e.key := e.value])
  }

  /** A sequence of writes performed in order. */
  function WriteAll<K(!new)>(st: Store<K>, ws: seq<Entry<K>>): Store<K>
    decreases |ws|
  {
    if ws == [] then st else WriteAll(Write(st, ws[0]), ws[1..])
  }

  /** No write after position `i` of `ws` touches `k`. */
  predicate Untouched<K(==)>(ws: seq<Entry<K>>, i: nat, k: K)
  {
    forall j :: i < j < |ws| ==> ws[j].key != k
  }

  /** The value of the last write to `k` in `ws`, if any. */
  function LastWrite<K(==,!new)>(ws: seq<Entry<K>>, k: K): (r: Option<u16>)
    ensures r.None? <==> forall i :: 0 <= i < |ws| ==> ws[i].key != k
    ensures r.Some? ==> exists i :: 0 <= i < |ws| && ws[i] == Entry(k, r.value) && Untouched(ws, i, k)
    decreases |ws|
  {
    if ws == [] then None
    else
      var rest := LastWrite(ws[1..], k);
      if rest.Some? then
        assert forall i :: 0 <= i < |ws[1..]| ==> ws[1..][i] == ws[i + 1];
        var i :| 0 <= i < |ws[1..]| && ws[1..][i] == Entry(k, rest.value) && Untouched(ws[1..], i, k);
        assert ws[i + 1] == Entry(k, rest.value) && Untouched(ws, i + 1, k);
        rest
      else if ws[0].key == k then
        assert forall j :: 1 <= j < |ws| ==> ws[j] == ws[1..][j - 1];
        assert Untouched(ws, 0, k);
        Some(ws[0].value)
      else
        assert forall i :: 1 <= i < |ws| ==> ws[i] == ws[1..][i - 1];
        None
  }

  /** Last write wins: after a batch of writes a cell holds its last written value, or what it held before. */
  lemma {:induction false} ReadAfterWriteAll<K(!new)>(st: Store<K>, ws: seq<Entry<K>>, k: K)
    ensures Read(WriteAll(st, ws), k) == (match LastWrite(ws, k) case Some(v) => v case None => Read(st, k))
    decreases |ws|
  {
    if ws != [] {
      ReadAfterWriteAll(Write(st, ws[0]), ws[1..], k);
    }
  }
}
