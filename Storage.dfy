/**
 * The entry store of src/utils/storage.ts: every operation reads the whole list kept under
 * one key, transforms it and writes the whole list back. The key-value slot is a field; the
 * outcome of the foreign write (`AsyncStorage.setItem`) is a parameter.
 */
module Storage {
  import opened Types

  /**
   * What the entry key holds: nothing (or the empty string), text that `JSON.parse` rejects
   * (or a read that fails), or a serialized list of entries.
   */
  datatype Slot = Absent | Corrupt | Stored(entries: seq<DiaryEntry>)

  /** What reading a slot yields: read and parse failures collapse to the empty list. */
  function SlotEntries(slot: Slot): (r: seq<DiaryEntry>)
    ensures slot.Stored? ==> r == slot.entries
    ensures !slot.Stored? ==> r == []
  {
    if slot.Stored? then slot.entries else []
  }

  predicate HasId(entries: seq<DiaryEntry>, id: string) {
    exists i :: 0 <= i < |entries| && entries[i].id == id
  }

  /** Index `i` holds the first entry of `entries` whose id is `id`. */
  predicate IsFirstMatch(entries: seq<DiaryEntry>, id: string, i: int) {
    && 0 <= i < |entries| && entries[i].id == id
    && forall j :: 0 <= j < i ==> entries[j].id != id
  }

  /** `entries.find(e => e.id === id)`, with `undefined` as `None`. */
  function FindById(entries: seq<DiaryEntry>, id: string): (r: Option<DiaryEntry>)
    ensures r.None? <==> !HasId(entries, id)
    ensures r.Some? ==> exists i :: IsFirstMatch(entries, id, i) && r.value == entries[i]
  {
    if entries == [] then None
    else if entries[0].id == id then
      assert IsFirstMatch(entries, id, 0);
      Some(entries[0])
    else
      var r := FindById(entries[1..], id);
      assert forall i :: IsFirstMatch(entries[1..], id, i) ==> IsFirstMatch(entries, id, i + 1);
      assert HasId(entries[1..], id) ==> HasId(entries, id);
      assert HasId(entries, id) ==> HasId(entries[1..], id) by {
        if HasId(entries, id) {
          var i :| 0 <= i < |entries| && entries[i].id == id;
          assert entries[1..][i - 1].id == id;
        }
      }
      r
  }

  /** `entries.map(e => e.id === updated.id ? updated : e)`. */
  function ReplaceById(entries: seq<DiaryEntry>, updated: DiaryEntry): (r: seq<DiaryEntry>)
    ensures |r| == |entries|
    ensures forall i :: 0 <= i < |r| ==> r[i] == if entries[i].id == updated.id then updated else entries[i]
  {
    if entries == [] then []
    else
      var head := if entries[0].id == updated.id then updated else entries[0];
      [head] + ReplaceById(entries[1..], updated)
  }

  /** `entries.filter(e => e.id !== id)`. */
  function RemoveById(entries: seq<DiaryEntry>, id: string): (r: seq<DiaryEntry>)
    ensures |r| <= |entries|
    ensures forall x :: x in r <==> x in entries && x.id != id
    ensures !HasId(entries, id) ==> r == entries
  {
    if entries == [] then []
    else
      var rest := RemoveById(entries[1..], id);
      assert !HasId(entries, id) ==> !HasId(entries[1..], id) by {
        if HasId(entries[1..], id) {
          var i :| 0 <= i < |entries[1..]| && entries[1..][i].id == id;
          assert entries[i + 1].id == id;
        }
      }
      assert forall x :: x in entries <==> x == entries[0] || x in entries[1..];
      if entries[0].id == id then rest else [entries[0]] + rest
  }

  /** Removal keeps the survivors in their original order: it distributes over concatenation. */
  lemma {:induction false} RemoveByIdAppend(a: seq<DiaryEntry>, b: seq<DiaryEntry>, id: string)
    ensures RemoveById(a + b, id) == RemoveById(a, id) + RemoveById(b, id)
  {
    if a != [] {
      assert (a + b)[0] == a[0] && (a + b)[1..] == a[1..] + b;
      RemoveByIdAppend(a[1..], b, id);
    } else {
      assert a + b == b;
    }
  }

  /** After appending `e`, a lookup finds the older entry when one already has the id, else `e` itself. */
  lemma {:induction false} FindAfterAppend(entries: seq<DiaryEntry>, e: DiaryEntry, id: string)
    ensures FindById(entries + [e], id) ==
      if HasId(entries, id) then FindById(entries, id)
      else if e.id == id then Some(e) else None
  {
    if entries == [] {
      assert entries + [e] == [e];
      assert [e][1..] == [];
    } else {
      assert (entries + [e])[0] == entries[0] && (entries + [e])[1..] == entries[1..] + [e];
      FindAfterAppend(entries[1..], e, id);
      if entries[0].id != id {
        assert HasId(entries, id) <==> HasId(entries[1..], id) by {
          if HasId(entries, id) {
            var i :| 0 <= i < |entries| && entries[i].id == id;
            assert entries[1..][i - 1].id == id;
          }
          if HasId(entries[1..], id) {
            var i :| 0 <= i < |entries[1..]| && entries[1..][i].id == id;
            assert entries[i + 1].id == id;
          }
        }
      } else {
        assert HasId(entries, id) by { assert entries[0].id == id; }
      }
    }
  }

  lemma FirstMatchUnique(entries: seq<DiaryEntry>, id: string, i: int, k: int)
    requires IsFirstMatch(entries, id, i) && IsFirstMatch(entries, id, k)
    ensures i == k
  {
  }

  /** The lookup returns exactly the first entry with the id. */
  lemma FindFirstMatch(entries: seq<DiaryEntry>, id: string, i: int)
    requires IsFirstMatch(entries, id, i)
    ensures FindById(entries, id) == Some(entries[i])
  {
    assert HasId(entries, id);
    var k :| IsFirstMatch(entries, id, k) && FindById(entries, id).value == entries[k];
    FirstMatchUnique(entries, id, i, k);
  }

  /** `r` is `entries` with every entry whose id is `updated.id` replaced by `updated`. */
  predicate IsReplacement(entries: seq<DiaryEntry>, r: seq<DiaryEntry>, updated: DiaryEntry) {
    |r| == |entries| &&
    forall i :: 0 <= i < |r| ==> r[i] == if entries[i].id == updated.id then updated else entries[i]
  }

  /** After an update whose id is stored, a lookup of that id returns the updated record. */
  lemma FindAfterReplace(entries: seq<DiaryEntry>, updated: DiaryEntry)
    requires HasId(entries, updated.id)
    ensures FindById(ReplaceById(entries, updated), updated.id) == Some(updated)
  {
    FindInReplacement(entries, ReplaceById(entries, updated), updated, updated.id);
  }

  /** An update never changes what a lookup of a different id returns. */
  lemma FindOtherAfterReplace(entries: seq<DiaryEntry>, updated: DiaryEntry, id: string)
    requires id != updated.id
    ensures FindById(ReplaceById(entries, updated), id) == FindById(entries, id)
  {
    FindInReplacement(entries, ReplaceById(entries, updated), updated, id);
  }

  lemma FindInReplacement(entries: seq<DiaryEntry>, r: seq<DiaryEntry>, updated: DiaryEntry, id: string)
    requires IsReplacement(entries, r, updated)
    ensures id == updated.id && HasId(entries, id) ==> FindById(r, id) == Some(updated)
    ensures id != updated.id ==> FindById(r, id) == FindById(entries, id)
  {
    if id == updated.id {
      if HasId(entries, id) {
        var found := FindById(entries, id);
        assert found.Some?;
        var i :| IsFirstMatch(entries, id, i) && found.value == entries[i];
        assert IsFirstMatch(r, id, i);
        FindFirstMatch(r, id, i);
      }
    } else {
      assert forall j :: 0 <= j < |r| ==> (r[j].id == id <==> entries[j].id == id);
      if HasId(entries, id) {
        var found := FindById(entries, id);
        assert found.Some?;
        var i :| IsFirstMatch(entries, id, i) && found.value == entries[i];
        assert IsFirstMatch(r, id, i) && r[i] == entries[i];
        FindFirstMatch(r, id, i);
      } else {
        assert !HasId(r, id);
      }
    }
  }

  /** An update or a delete whose id is not stored leaves the list as it was. */
  lemma MissingIdIsNoOp(entries: seq<DiaryEntry>, updated: DiaryEntry, id: string)
    requires !HasId(entries, updated.id) && !HasId(entries, id)
    ensures ReplaceById(entries, updated) == entries
    ensures RemoveById(entries, id) == entries
  {
    var r := ReplaceById(entries, updated);
    forall i | 0 <= i < |r|
      ensures r[i] == entries[i]
    {
      assert entries[i].id != updated.id;
    }
  }

  /** The persisted entry list and the operations of src/utils/storage.ts over it. */
  class EntryStore {
    var slot: Slot

    constructor (initial: Slot)
      ensures slot == initial
    {
      slot := initial;
    }

    /** The list every operation starts from. */
    function Entries(): seq<DiaryEntry>
      reads this
    {
      SlotEntries(slot)
    }

    /** `getDiaryEntries`: the stored list in insertion order; never fails. */
    method GetDiaryEntries() returns (entries: seq<DiaryEntry>)
      ensures slot.Stored? ==> entries == slot.entries
      ensures !slot.Stored? ==> entries == []
    {
      entries := SlotEntries(slot);
    }

    /** `getDiaryEntryById`: the first stored entry with that id, or null; never fails. */
    method GetDiaryEntryById(id: string) returns (r: Option<DiaryEntry>)
      ensures r == FindById(Entries(), id)
    {
      var entries := GetDiaryEntries();
      r := FindById(entries, id);
    }

    /** `saveDiaryEntry`: append at the end, no sorting, no duplicate check; a write failure propagates. */
    method SaveDiaryEntry(entry: DiaryEntry, writeOk: bool) returns (res: Outcome)
      modifies this
      ensures res == if writeOk then Pass else Fail(StorageWriteError)
      ensures writeOk ==> slot == Stored(old(Entries()) + [entry])
      ensures !writeOk ==> slot == old(slot)
    {
      var existing := GetDiaryEntries();
      var newEntries := existing + [entry];
      res := Write(newEntries, writeOk);
    }

    /** `updateDiaryEntry`: every entry with the id is replaced; a write failure propagates. */
    method UpdateDiaryEntry(updated: DiaryEntry, writeOk: bool) returns (res: Outcome)
      modifies this
      ensures res == if writeOk then Pass else Fail(StorageWriteError)
      ensures writeOk ==> slot == Stored(ReplaceById(old(Entries()), updated))
      ensures !writeOk ==> slot == old(slot)
    {
      var existing := GetDiaryEntries();
      var newEntries := ReplaceById(existing, updated);
      res := Write(newEntries, writeOk);
    }

    /** `deleteDiaryEntry`: every entry with the id is dropped; a write failure propagates. */
    method DeleteDiaryEntry(id: string, writeOk: bool) returns (res: Outcome)
      modifies this
      ensures res == if writeOk then Pass else Fail(StorageWriteError)
      ensures writeOk ==> slot == Stored(RemoveById(old(Entries()), id))
      ensures !writeOk ==> slot == old(slot)
    {
      var existing := GetDiaryEntries();
      var newEntries := RemoveById(existing, id);
      res := Write(newEntries, writeOk);
    }

    /** `AsyncStorage.setItem` of the whole list: replaces the slot, or rejects and leaves it. */
    method Write(entries: seq<DiaryEntry>, writeOk: bool) returns (res: Outcome)
      modifies this
      ensures res == if writeOk then Pass else Fail(StorageWriteError)
      ensures slot == if writeOk then Stored(entries) else old(slot)
    {
      if writeOk {
        slot := Stored(entries);
        res := Pass;
      } else {
        res := Fail(StorageWriteError);
      }
    }
  }

  /** Saving over a slot that cannot be read keeps only the new entry: the old text is lost. */
  method SaveOverCorruptSlot(entry: DiaryEntry) returns (entries: seq<DiaryEntry>)
    ensures entries == [entry]
  {
    var store := new EntryStore(Corrupt);
    var _ := store.SaveDiaryEntry(entry, true);
    entries := store.GetDiaryEntries();
  }

  /** Saving a second entry with an existing id keeps both, and a lookup returns the older one. */
  method SaveDuplicateId(entries: seq<DiaryEntry>, older: DiaryEntry, newer: DiaryEntry)
    returns (all: seq<DiaryEntry>, found: Option<DiaryEntry>)
    requires !HasId(entries, older.id) && newer.id == older.id
    ensures all == entries + [older, newer]
    ensures found == Some(older)
  {
    var store := new EntryStore(Stored(entries));
    var _ := store.SaveDiaryEntry(older, true);
    var _ := store.SaveDiaryEntry(newer, true);
    FindAfterAppend(entries, older, older.id);
    FindAfterAppend(entries + [older], newer, older.id);
    assert HasId(entries + [older], older.id) by {
      assert (entries + [older])[|entries|].id == older.id;
    }
    all := store.GetDiaryEntries();
    assert all == entries + [older, newer];
    found := store.GetDiaryEntryById(older.id);
  }

  /** Creating an entry with a fresh id and then looking it up returns it unchanged. */
  method SaveThenLookup(entries: seq<DiaryEntry>, entry: DiaryEntry) returns (found: Option<DiaryEntry>)
    requires !HasId(entries, entry.id)
    ensures found == Some(entry)
  {
    var store := new EntryStore(Stored(entries));
    var _ := store.SaveDiaryEntry(entry, true);
    FindAfterAppend(entries, entry, entry.id);
    found := store.GetDiaryEntryById(entry.id);
  }

  /** After a successful delete, no entry with the id is left and a lookup returns null. */
  method DeleteThenLookup(initial: Slot, id: string) returns (found: Option<DiaryEntry>)
    ensures found == None
  {
    var store := new EntryStore(initial);
    var _ := store.DeleteDiaryEntry(id, true);
    found := store.GetDiaryEntryById(id);
  }
}
