/** The API-key store: its JSON document, strict validation, and adding and removing keys. */
module KeyStore {
  import opened Basics

  /** A decoded JSON value; `Other` covers null, booleans and non-integer numbers. */
  datatype Json = Obj(fields: map<string, Json>) | List(items: seq<Json>) | Str(text: string) | Int(n: int) | Other

  datatype Record = Record(id: string, sha256: string)

  const SCHEMA_VERSION := 1

  predicate UrlSafe(c: char) {
    'A' <= c <= 'Z' || 'a' <= c <= 'z' || '0' <= c <= '9' || c == '_' || c == '-'
  }

  predicate AllUrlSafe(s: string) { forall i :: 0 <= i < |s| ==> UrlSafe(s[i]) }

  predicate IsKeyId(s: string) { 1 <= |s| <= 64 && AllUrlSafe(s) }

  predicate IsDigest(s: string) {
    |s| == 64 && forall i :: 0 <= i < |s| ==> '0' <= s[i] <= '9' || 'a' <= s[i] <= 'f'
  }

  ghost predicate ValidRecords(rs: seq<Record>) {
    && (forall i :: 0 <= i < |rs| ==> IsKeyId(rs[i].id) && IsDigest(rs[i].sha256))
    && (forall i, j :: 0 <= i < j < |rs| ==> rs[i].id != rs[j].id)
  }

  // ---- the document ----

  function EntryOf(r: Record): Json { Obj(map["id" := Str(r.id), "sha256" := Str(r.sha256)]) }

  function EntriesOf(rs: seq<Record>): (items: seq<Json>)
    ensures |items| == |rs| && forall i :: 0 <= i < |rs| ==> items[i] == EntryOf(rs[i])
  {
    seq(|rs|, i requires 0 <= i < |rs| => EntryOf(rs[i]))
  }

  function DocumentOf(rs: seq<Record>): Json {
    Obj(map["schema_version" := Int(SCHEMA_VERSION), "keys" := List(EntriesOf(rs))])
  }

  lemma EntryInjective(r: Record, q: Record)
    requires EntryOf(r) == EntryOf(q)
    ensures r == q
  {
    assert EntryOf(r).fields["id"] == Str(r.id) && EntryOf(q).fields["id"] == Str(q.id);
    assert EntryOf(r).fields["sha256"] == Str(r.sha256) && EntryOf(q).fields["sha256"] == Str(q.sha256);
  }

  lemma DocumentItems(rs: seq<Record>)
    ensures DocumentOf(rs).fields.Keys == {"schema_version", "keys"}
    ensures DocumentOf(rs).fields["schema_version"] == Int(SCHEMA_VERSION)
    ensures DocumentOf(rs).fields["keys"] == List(EntriesOf(rs))
  {
  }

  lemma DocumentInjective(rs: seq<Record>, qs: seq<Record>)
    requires DocumentOf(rs) == DocumentOf(qs)
    ensures rs == qs
  {
    DocumentItems(rs);
    DocumentItems(qs);
    assert EntriesOf(rs) == EntriesOf(qs);
    forall i | 0 <= i < |rs| ensures rs[i] == qs[i] {
      assert EntriesOf(rs)[i] == EntriesOf(qs)[i];
      EntryInjective(rs[i], qs[i]);
    }
  }

  /** `doc` is the document of `rs`, and `rs` is an acceptable store. */
  ghost predicate Describes(doc: Json, nonempty: bool, rs: seq<Record>) {
    doc == DocumentOf(rs) && ValidRecords(rs) && (nonempty ==> rs != [])
  }

  /** An entry that is the entry of some valid record. */
  ghost predicate GoodEntry(item: Json) {
    exists r :: item == EntryOf(r) && IsKeyId(r.id) && IsDigest(r.sha256)
  }

  method ReadEntry(item: Json) returns (r: Option<Record>)
    ensures r.Some? ==> item == EntryOf(r.value) && IsKeyId(r.value.id) && IsDigest(r.value.sha256)
    ensures r.None? ==> !GoodEntry(item)
  {
    if !item.Obj? || item.fields.Keys != {"id", "sha256"} {
      return None;
    }
    var id, digest := item.fields["id"], item.fields["sha256"];
    if !id.Str? || !IsKeyId(id.text) || !digest.Str? || !IsDigest(digest.text) {
      EntryFields(item);
      return None;
    }
    assert item.fields == map["id" := id, "sha256" := digest];
    return Some(Record(id.text, digest.text));
  }

  lemma EntryFields(item: Json)
    ensures GoodEntry(item) ==>
      && item.Obj? && item.fields.Keys == {"id", "sha256"}
      && item.fields["id"].Str? && IsKeyId(item.fields["id"].text)
      && item.fields["sha256"].Str? && IsDigest(item.fields["sha256"].text)
  {
  }

  /** Strict validation accepts exactly the documents the printer produces for valid stores, and
      returns the records that were printed. */
  method ValidateDocument(doc: Json, nonempty: bool) returns (r: Option<seq<Record>>)
    ensures r.Some? ==> Describes(doc, nonempty, r.value)
    ensures r.None? ==> !exists rs :: Describes(doc, nonempty, rs)
  {
    if !doc.Obj? || doc.fields.Keys != {"schema_version", "keys"} {
      NotADocument(doc);
      return None;
    }
    if doc.fields["schema_version"] != Int(SCHEMA_VERSION) || !doc.fields["keys"].List? {
      NotADocument(doc);
      return None;
    }
    var items := doc.fields["keys"].items;
    assert doc.fields == map["schema_version" := Int(SCHEMA_VERSION), "keys" := List(items)];
    if nonempty && items == [] {
      return None;
    }
    var records: seq<Record> := [];
    var seen: set<string> := {};
    for i := 0 to |items|
      invariant |records| == i && ValidRecords(records) && EntriesOf(records) == items[..i]
      invariant forall id :: id in seen <==> exists j :: 0 <= j < i && records[j].id == id
    {
      var entry := ReadEntry(items[i]);
      if entry.None? {
        BadEntry(doc, items, i);
        return None;
      }
      if entry.value.id in seen {
        DuplicateEntry(doc, items, records, i, entry.value);
        return None;
      }
      seen := seen + {entry.value.id};
      records := records + [entry.value];
    }
    assert items[..|items|] == items;
    return Some(records);
  }

  lemma NotADocument(doc: Json)
    requires doc.Obj? ==> doc.fields.Keys != {"schema_version", "keys"} ||
                          doc.fields["schema_version"] != Int(SCHEMA_VERSION) || !doc.fields["keys"].List?
    ensures forall rs :: doc != DocumentOf(rs)
  {
    forall rs ensures doc != DocumentOf(rs) {
      DocumentItems(rs);
    }
  }

  lemma BadEntry(doc: Json, items: seq<Json>, i: nat)
    requires doc.Obj? && "keys" in doc.fields && doc.fields["keys"] == List(items)
    requires i < |items| && !GoodEntry(items[i])
    ensures forall rs :: doc == DocumentOf(rs) ==> !ValidRecords(rs)
  {
    forall rs | doc == DocumentOf(rs) ensures !ValidRecords(rs) {
      DocumentItems(rs);
      assert items[i] == EntryOf(rs[i]);
    }
  }

  lemma DuplicateEntry(doc: Json, items: seq<Json>, records: seq<Record>, i: nat, r: Record)
    requires doc.Obj? && "keys" in doc.fields && doc.fields["keys"] == List(items) && i < |items|
    requires |records| == i && EntriesOf(records) == items[..i] && items[i] == EntryOf(r)
    requires exists j :: 0 <= j < i && records[j].id == r.id
    ensures forall rs :: doc == DocumentOf(rs) ==> !ValidRecords(rs)
  {
    var j :| 0 <= j < i && records[j].id == r.id;
    forall rs | doc == DocumentOf(rs) ensures !ValidRecords(rs) {
      DocumentItems(rs);
      assert items[i] == EntryOf(rs[i]) && items[j] == EntryOf(rs[j]);
      EntryInjective(rs[i], r);
      assert EntriesOf(records)[j] == items[j];
      EntryInjective(rs[j], records[j]);
    }
  }

  // ---- the store file ----

  /** The file as load_key_file() finds it: absent, unreadable as JSON, or a document. */
  datatype File = Missing | Garbage | Document(doc: Json)

  /** What loading a store yields; at most one record list describes a document. */
  ghost function Loaded(f: File, nonempty: bool): Option<seq<Record>> {
    if f.Document? && exists rs :: Describes(f.doc, nonempty, rs)
    then var rs :| Describes(f.doc, nonempty, rs); Some(rs)
    else None
  }

  lemma LoadedIs(f: File, nonempty: bool, rs: seq<Record>)
    requires f.Document? && Describes(f.doc, nonempty, rs)
    ensures Loaded(f, nonempty) == Some(rs)
  {
    var qs := Loaded(f, nonempty).value;
    DocumentInjective(rs, qs);
  }

  /** Printing then validating is the identity. */
  lemma RoundTrip(rs: seq<Record>)
    requires ValidRecords(rs)
    ensures Loaded(Document(DocumentOf(rs)), false) == Some(rs)
  {
    LoadedIs(Document(DocumentOf(rs)), false, rs);
  }

  method LoadFile(f: File, nonempty: bool) returns (r: Option<seq<Record>>)
    ensures r == Loaded(f, nonempty)
  {
    if !f.Document? {
      return None;
    }
    r := ValidateDocument(f.doc, nonempty);
    if r.Some? {
      LoadedIs(f, nonempty, r.value);
    }
  }

  function Without(rs: seq<Record>, id: string): seq<Record> {
    if rs == [] then [] else
      var n := |rs| - 1;
      if rs[n].id == id then Without(rs[..n], id) else Without(rs[..n], id) + [rs[n]]
  }

  predicate HasId(rs: seq<Record>, id: string) { exists i :: 0 <= i < |rs| && rs[i].id == id }

  /** generate_key(): the store afterwards, or none when it is refused; a missing file starts empty. */
  ghost function Generated(f: File, id: string, digest: string): Option<File> {
    if !IsKeyId(id) then None else
      var records := if f.Missing? then Some([]) else Loaded(f, false);
      if records.None? || HasId(records.value, id) then None
      else Some(Document(DocumentOf(records.value + [Record(id, digest)])))
  }

  /** revoke_key(): the store afterwards, or none when there is no such key. */
  ghost function Revoked(f: File, id: string): Option<File> {
    if !IsKeyId(id) || Loaded(f, false).None? then None
    else
      var records := Loaded(f, false).value;
      if !HasId(records, id) then None else Some(Document(DocumentOf(Without(records, id))))
  }

  lemma {:induction false} WithoutMembers(rs: seq<Record>, id: string)
    ensures forall r :: r in Without(rs, id) <==> r in rs && r.id != id
    decreases |rs|
  {
    if rs != [] {
      var n := |rs| - 1;
      WithoutMembers(rs[..n], id);
      assert rs == rs[..n] + [rs[n]];
    }
  }

  lemma {:induction false} WithoutLength(rs: seq<Record>, id: string)
    ensures |Without(rs, id)| <= |rs|
    ensures |Without(rs, id)| == |rs| <==> !HasId(rs, id)
    decreases |rs|
  {
    if rs != [] {
      var n := |rs| - 1;
      WithoutLength(rs[..n], id);
      if HasId(rs[..n], id) {
        var i :| 0 <= i < n && rs[..n][i].id == id;
        assert rs[i].id == id;
      } else if HasId(rs, id) {
        var i :| 0 <= i < |rs| && rs[i].id == id;
        assert i < n ==> rs[..n][i].id == id;
      }
    }
  }

  /** Removing the one record of an id leaves the others where they were. */
  lemma {:induction false} WithoutIs(rs: seq<Record>, id: string, i: nat)
    requires ValidRecords(rs) && i < |rs| && rs[i].id == id
    ensures Without(rs, id) == rs[..i] + rs[i + 1..]
    decreases |rs|
  {
    var n := |rs| - 1;
    if i == n {
      NothingToRemove(rs[..n], id);
    } else {
      WithoutIs(rs[..n], id, i);
      assert rs[..n][..i] == rs[..i] && rs[i + 1..] == rs[..n][i + 1..] + [rs[n]];
    }
  }

  lemma {:induction false} NothingToRemove(rs: seq<Record>, id: string)
    requires forall i :: 0 <= i < |rs| ==> rs[i].id != id
    ensures Without(rs, id) == rs
    decreases |rs|
  {
    if rs != [] {
      NothingToRemove(rs[..|rs| - 1], id);
      assert rs == rs[..|rs| - 1] + [rs[|rs| - 1]];
    }
  }

  /** The file prints these records and loads back to them. */
  ghost predicate Stores(f: File, rs: seq<Record>) { f == Document(DocumentOf(rs)) && ValidRecords(rs) }

  /** A stored list is what loading yields, unless an empty one is refused. */
  lemma StoresLoads(f: File, rs: seq<Record>)
    requires Stores(f, rs)
    ensures Loaded(f, false) == Some(rs)
    ensures Loaded(f, true) == if rs == [] then None else Some(rs)
  {
    LoadedIs(f, false, rs);
    if rs != [] {
      LoadedIs(f, true, rs);
    } else if Loaded(f, true).Some? {
      DocumentInjective(rs, Loaded(f, true).value);
    }
  }

  lemma GeneratedStores(rs: seq<Record>, id: string, digest: string)
    requires ValidRecords(rs) && IsKeyId(id) && IsDigest(digest) && forall i :: 0 <= i < |rs| ==> rs[i].id != id
    ensures Stores(Document(DocumentOf(rs + [Record(id, digest)])), rs + [Record(id, digest)])
  {
    ValidSnoc(rs, Record(id, digest));
  }

  /** Generating a key succeeds on a missing store, or on a store that loads and does not have the id;
      the store then loads as before followed by the new record. */
  lemma GeneratedAppends(f: File, id: string, digest: string)
    requires IsDigest(digest)
    ensures var earlier := if f.Missing? then Some([]) else Loaded(f, false);
      && (Generated(f, id, digest).Some? <==>
            IsKeyId(id) && earlier.Some? && forall i :: 0 <= i < |earlier.value| ==> earlier.value[i].id != id)
      && (Generated(f, id, digest).Some? ==>
            Loaded(Generated(f, id, digest).value, false) == Some(earlier.value + [Record(id, digest)]))
  {
    var earlier := if f.Missing? then Some([]) else Loaded(f, false);
    if Generated(f, id, digest).Some? {
      GeneratedStores(earlier.value, id, digest);
      StoresLoads(Generated(f, id, digest).value, earlier.value + [Record(id, digest)]);
    }
  }

  /** Revoking succeeds exactly on a store that loads and has the id; the store then loads as before
      with that one record taken out and the others where they were. */
  lemma RevokedRemoves(f: File, id: string)
    ensures Revoked(f, id).Some? <==>
      IsKeyId(id) && Loaded(f, false).Some? &&
      exists i :: 0 <= i < |Loaded(f, false).value| && Loaded(f, false).value[i].id == id
    ensures Revoked(f, id).Some? ==>
      var rs := Loaded(f, false).value;
      forall i :: 0 <= i < |rs| && rs[i].id == id ==>
        Loaded(Revoked(f, id).value, false) == Some(rs[..i] + rs[i + 1..])
  {
    if Revoked(f, id).Some? {
      var rs := Loaded(f, false).value;
      WithoutValid(rs, id);
      StoresLoads(Revoked(f, id).value, Without(rs, id));
      forall i | 0 <= i < |rs| && rs[i].id == id ensures Without(rs, id) == rs[..i] + rs[i + 1..] {
        WithoutIs(rs, id, i);
      }
    }
  }

  lemma ValidSnoc(rs: seq<Record>, r: Record)
    requires ValidRecords(rs) && IsKeyId(r.id) && IsDigest(r.sha256) && forall q :: q in rs ==> q.id != r.id
    ensures ValidRecords(rs + [r])
  {
  }

  lemma {:induction false} WithoutValid(rs: seq<Record>, id: string)
    requires ValidRecords(rs)
    ensures ValidRecords(Without(rs, id))
    decreases |rs|
  {
    if rs != [] {
      var n := |rs| - 1;
      WithoutValid(rs[..n], id);
      WithoutMembers(rs[..n], id);
      if rs[n].id != id {
        forall q | q in Without(rs[..n], id) ensures q.id != rs[n].id {
          var i :| 0 <= i < n && rs[..n][i] == q;
          assert rs[i] == q;
        }
        ValidSnoc(Without(rs[..n], id), rs[n]);
      }
    }
  }

  class KeyFile {
    var file: File

    /** Adds a key; the store is replaced in one step, or left alone when the key is refused. */
    method GenerateKey(id: string, digest: string) returns (ok: bool)
      modifies this
      ensures ok == Generated(old(file), id, digest).Some?
      ensures file == if ok then Generated(old(file), id, digest).value else old(file)
      ensures ok && IsDigest(digest) ==>
        var earlier := if old(file).Missing? then [] else Loaded(old(file), false).value;
        Loaded(file, false) == Some(earlier + [Record(id, digest)])
    {
      if IsDigest(digest) {
        GeneratedAppends(file, id, digest);
      }
      if !IsKeyId(id) {
        return false;
      }
      var records := [];
      if !file.Missing? {
        var loaded := LoadFile(file, false);
        if loaded.None? {
          return false;
        }
        records := loaded.value;
      }
      if exists i :: 0 <= i < |records| && records[i].id == id {
        return false;
      }
      file := Document(DocumentOf(records + [Record(id, digest)]));
      return true;
    }

    /** Removes a key by keeping every other record in order. */
    method RevokeKey(id: string) returns (ok: bool)
      modifies this
      ensures ok == Revoked(old(file), id).Some?
      ensures file == if ok then Revoked(old(file), id).value else old(file)
      ensures ok ==>
        var rs := Loaded(old(file), false).value;
        exists i :: 0 <= i < |rs| && rs[i].id == id && Loaded(file, false) == Some(rs[..i] + rs[i + 1..])
    {
      RevokedRemoves(file, id);
      if !IsKeyId(id) {
        return false;
      }
      var loaded := LoadFile(file, false);
      if loaded.None? {
        return false;
      }
      var records, remaining := loaded.value, [];
      for i := 0 to |records|
        invariant remaining == Without(records[..i], id) && file == old(file)
      {
        assert records[..i + 1][..i] == records[..i];
        if records[i].id != id {
          remaining := remaining + [records[i]];
        }
      }
      assert records[..|records|] == records;
      WithoutLength(records, id);
      if |remaining| == |records| {
        return false;
      }
      file := Document(DocumentOf(remaining));
      return true;
    }
  }
}
