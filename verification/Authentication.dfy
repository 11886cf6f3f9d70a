/** Bearer authentication against the loaded key store, and runs of issuing, revoking and loading. */
module Authentication {
  import opened Basics
  import opened KeyStore

  type Headers = seq<(string, string)>

  const DUMMY_DIGEST: string := seq(64, _ => '0')

  predicate IsSecret(s: string) { s != [] && AllUrlSafe(s) }

  function LowerChar(c: char): char { if 'A' <= c <= 'Z' then c - 'A' + 'a' else c }

  function Lower(s: string): (r: string)
    ensures |r| == |s| && forall i :: 0 <= i < |s| ==> r[i] == LowerChar(s[i])
  {
    seq(|s|, i requires 0 <= i < |s| => LowerChar(s[i]))
  }

  /** str.split(sep) for a one-character separator. */
  function Split(s: string, sep: char): (parts: seq<string>)
    ensures parts != []
  {
    if s == [] then [[]] else
      var rest := Split(s[1..], sep);
      if s[0] == sep then [[]] + rest else [[s[0]] + rest[0]] + rest[1..]
  }

  lemma {:induction false} SplitWhole(s: string, sep: char)
    ensures |Split(s, sep)| == 1 <==> sep !in s
    ensures sep !in s ==> Split(s, sep) == [s]
    decreases |s|
  {
    if s != [] {
      SplitWhole(s[1..], sep);
      assert s == [s[0]] + s[1..];
    }
  }

  /** Two pieces mean exactly one separator, between them. */
  lemma {:induction false} SplitPair(s: string, sep: char)
    requires |Split(s, sep)| == 2
    ensures var p := Split(s, sep); s == p[0] + [sep] + p[1] && sep !in p[0] && sep !in p[1]
    decreases |s|
  {
    assert s == [s[0]] + s[1..];
    if s[0] == sep {
      SplitWhole(s[1..], sep);
    } else {
      SplitPair(s[1..], sep);
      var p := Split(s[1..], sep);
      assert s == ([s[0]] + p[0]) + [sep] + p[1];
    }
  }

  lemma {:induction false} SplitOfPair(a: string, b: string, sep: char)
    requires sep !in a && sep !in b
    ensures Split(a + [sep] + b, sep) == [a, b]
    decreases |a|
  {
    var s := a + [sep] + b;
    if a == [] {
      assert s[1..] == b;
      SplitWhole(b, sep);
    } else {
      assert s[1..] == a[1..] + [sep] + b;
      SplitOfPair(a[1..], b, sep);
      assert a == [a[0]] + a[1..];
    }
  }

  /** The values of the authorization headers, header names compared without case. */
  function AuthorizationValues(headers: Headers): seq<string> {
    if headers == [] then [] else
      var n := |headers| - 1;
      AuthorizationValues(headers[..n]) + if Lower(headers[n].0) == "authorization" then [headers[n].1] else []
  }

  predicate IsAscii(s: string) { forall i :: 0 <= i < |s| ==> s[i] < 128 as char }

  /** The parsing half of authenticate(): the key id and secret presented, if well formed. */
  function Credentials(headers: Headers): Option<(string, string)> {
    var values := AuthorizationValues(headers);
    if |values| != 1 || !IsAscii(values[0]) then None else
    var pieces := Split(values[0], ' ');
    if |pieces| != 2 || Lower(pieces[0]) != "bearer" || pieces[1] == [] then None else
    var parts := Split(pieces[1], '.');
    if |parts| != 2 || !IsKeyId(parts[0]) || !IsSecret(parts[1]) then None
    else Some((parts[0], parts[1]))
  }

  function Token(id: string, secret: string): string { id + "." + secret }

  /** authenticate(): a key id, or nothing without saying why. */
  function Authenticate(required: bool, digests: Option<map<string, string>>, hash: string -> string,
                        headers: Headers): Option<string> {
    if !required then Some("-")
    else if digests.None? || Credentials(headers).None? then None
    else
      var (id, secret) := Credentials(headers).value;
      var expected := if id in digests.value then digests.value[id] else DUMMY_DIGEST;
      if hash(Token(id, secret)) == expected then Some(id) else None
  }

  /** `s` is the lower-case word `word` with any of its letters in upper case. */
  ghost predicate Spells(s: string, word: string) {
    |s| == |word| && forall i :: 0 <= i < |s| ==> s[i] == word[i] || s[i] as int == word[i] as int - 32
  }

  lemma LowerSpells(s: string, word: string)
    requires forall i :: 0 <= i < |word| ==> 'a' <= word[i] <= 'z'
    ensures Lower(s) == word <==> Spells(s, word)
  {
    if Lower(s) == word {
      forall i | 0 <= i < |s| ensures s[i] == word[i] || s[i] as int == word[i] as int - 32 {
        assert LowerChar(s[i]) == word[i];
      }
    }
    if Spells(s, word) {
      forall i | 0 <= i < |s| ensures LowerChar(s[i]) == word[i] {
        assert s[i] == word[i] || s[i] as int == word[i] as int - 32;
      }
    }
  }

  /** The header at position `i`, and no other, is an authorization header. */
  ghost predicate OnlyAuthorization(headers: Headers, i: nat) {
    && i < |headers| && Spells(headers[i].0, "authorization")
    && forall j :: 0 <= j < |headers| && j != i ==> !Spells(headers[j].0, "authorization")
  }

  /** The value is the bearer scheme in any case, one space and the token. */
  ghost predicate BearerValue(value: string, id: string, secret: string) {
    exists scheme :: Spells(scheme, "bearer") && value == scheme + " " + Token(id, secret)
  }

  /** What a client must send: exactly one authorization header, holding the scheme, one space and a
      token. */
  ghost predicate Presents(headers: Headers, id: string, secret: string) {
    && IsKeyId(id) && IsSecret(secret)
    && exists i: nat :: OnlyAuthorization(headers, i) && BearerValue(headers[i].1, id, secret)
  }

  lemma {:induction false} NoAuthorization(headers: Headers)
    requires forall j :: 0 <= j < |headers| ==> !Spells(headers[j].0, "authorization")
    ensures AuthorizationValues(headers) == []
    decreases |headers|
  {
    if headers != [] {
      LowerSpells(headers[|headers| - 1].0, "authorization");
      NoAuthorization(headers[..|headers| - 1]);
    }
  }

  /** Exactly one authorization header means exactly one value, its own. */
  lemma {:induction false} OneAuthorization(headers: Headers, i: nat)
    requires OnlyAuthorization(headers, i)
    ensures AuthorizationValues(headers) == [headers[i].1]
    decreases |headers|
  {
    var n := |headers| - 1;
    LowerSpells(headers[n].0, "authorization");
    if i == n {
      NoAuthorization(headers[..n]);
    } else {
      OneAuthorization(headers[..n], i);
    }
  }

  /** No value means no authorization header. */
  lemma {:induction false} NoValues(headers: Headers)
    requires AuthorizationValues(headers) == []
    ensures forall j :: 0 <= j < |headers| ==> !Spells(headers[j].0, "authorization")
    decreases |headers|
  {
    if headers != [] {
      LowerSpells(headers[|headers| - 1].0, "authorization");
      NoValues(headers[..|headers| - 1]);
    }
  }

  lemma {:induction false} OneValue(headers: Headers) returns (i: nat)
    requires |AuthorizationValues(headers)| == 1
    ensures OnlyAuthorization(headers, i) && AuthorizationValues(headers) == [headers[i].1]
    decreases |headers|
  {
    var n := |headers| - 1;
    LowerSpells(headers[n].0, "authorization");
    if Lower(headers[n].0) == "authorization" {
      assert AuthorizationValues(headers[..n]) == [];
      NoValues(headers[..n]);
      i := n;
    } else {
      i := OneValue(headers[..n]);
    }
  }

  lemma NoSeparators(s: string)
    requires AllUrlSafe(s)
    ensures ' ' !in s && '.' !in s
  {
  }

  lemma BearerHasNoSpace(scheme: string)
    requires Lower(scheme) == "bearer"
    ensures ' ' !in scheme && IsAscii(scheme)
  {
    forall i | 0 <= i < |scheme| ensures scheme[i] != ' ' && scheme[i] < 128 as char {
      assert LowerChar(scheme[i]) == "bearer"[i];
    }
  }

  lemma ParsePresented(headers: Headers, id: string, secret: string)
    requires Presents(headers, id, secret)
    ensures Credentials(headers) == Some((id, secret))
  {
    var i: nat :| OnlyAuthorization(headers, i) && BearerValue(headers[i].1, id, secret);
    OneAuthorization(headers, i);
    ParseValue(headers[i].1, id, secret);
  }

  lemma ParseValue(value: string, id: string, secret: string)
    requires BearerValue(value, id, secret) && IsKeyId(id) && IsSecret(secret)
    ensures IsAscii(value) && |Split(value, ' ')| == 2 && Lower(Split(value, ' ')[0]) == "bearer"
    ensures Split(value, ' ')[1] == Token(id, secret) != [] && Split(Token(id, secret), '.') == [id, secret]
  {
    var scheme :| Spells(scheme, "bearer") && value == scheme + " " + Token(id, secret);
    LowerSpells(scheme, "bearer");
    BearerHasNoSpace(scheme);
    NoSeparators(id);
    NoSeparators(secret);
    assert value == scheme + [' '] + Token(id, secret);
    SplitOfPair(scheme, Token(id, secret), ' ');
    assert Token(id, secret) == id + ['.'] + secret;
    SplitOfPair(id, secret, '.');
    assert IsAscii(value);
  }

  lemma ParsedWasPresented(headers: Headers)
    requires Credentials(headers).Some?
    ensures Presents(headers, Credentials(headers).value.0, Credentials(headers).value.1)
  {
    var i := OneValue(headers);
    var value := headers[i].1;
    var pieces := Split(value, ' ');
    SplitPair(value, ' ');
    SplitPair(pieces[1], '.');
    var (id, secret) := Credentials(headers).value;
    LowerSpells(pieces[0], "bearer");
    assert pieces[1] == Token(id, secret);
    assert value == pieces[0] + " " + Token(id, secret);
    assert BearerValue(value, id, secret);
  }

  /** SHA-256 as the model uses it: hex digests, never all zeros. */
  ghost predicate IsHash(hash: string -> string) {
    forall x :: IsDigest(hash(x)) && hash(x) != DUMMY_DIGEST
  }

  /** No two of these tokens have the same digest. */
  ghost predicate Collisionless(hash: string -> string, tokens: set<string>) {
    forall x, y :: x in tokens && y in tokens && hash(x) == hash(y) ==> x == y
  }

  /** The view holds this digest for this id. */
  predicate Holds(view: Option<map<string, string>>, id: string, digest: string) {
    view.Some? && id in view.value && view.value[id] == digest
  }

  /** A request is authenticated as `id` exactly when a store is loaded and the request has one
      authorization header, of any position, with a token for `id` whose digest is the one loaded for
      `id`; in particular a second authorization header, whatever it holds, is refused. Where no key is
      required every request is the anonymous caller's. */
  lemma AcceptedIff(required: bool, view: Option<map<string, string>>, hash: string -> string, headers: Headers,
                    id: string)
    requires IsHash(hash)
    ensures Authenticate(required, view, hash, headers) == Some(id) <==>
            if required then exists secret :: Presents(headers, id, secret) && Holds(view, id, hash(Token(id, secret)))
            else id == "-"
  {
    if Credentials(headers).Some? {
      ParsedWasPresented(headers);
    }
    forall secret | Presents(headers, id, secret) ensures Credentials(headers) == Some((id, secret)) {
      ParsePresented(headers, id, secret);
    }
  }

  // ---- runs ----

  function AsMap(rs: seq<Record>): map<string, string> {
    if rs == [] then map[] else AsMap(rs[..|rs| - 1])[rs[|rs| - 1].id := rs[|rs| - 1].sha256]
  }

  lemma {:induction false} AsMapIs(rs: seq<Record>)
    requires ValidRecords(rs)
    ensures forall id :: id in AsMap(rs) ==> Record(id, AsMap(rs)[id]) in rs
    ensures forall r :: r in rs ==> r.id in AsMap(rs) && AsMap(rs)[r.id] == r.sha256
    decreases |rs|
  {
    if rs != [] {
      var n := |rs| - 1;
      AsMapIs(rs[..n]);
      assert rs == rs[..n] + [rs[n]];
      assert forall r :: r in rs[..n] ==> r.id != rs[n].id;
    }
  }

  /** load() on an authenticator that requires keys: a store that is missing, malformed or empty leaves
      the view it had. */
  ghost function Reloaded(view: Option<map<string, string>>, f: File): Option<map<string, string>> {
    if Loaded(f, true).Some? then Some(AsMap(Loaded(f, true).value)) else view
  }

  /** `issued` is every token ever printed. `Restart` is a server start, a load into a fresh view;
      `Reload` is a load on a live authenticator. */
  datatype State = State(file: File, loaded: Option<map<string, string>>, issued: set<string>)

  datatype Step = Generate(id: string, secret: string) | Revoke(id: string) | Restart | Reload | Clear

  const Init := State(Missing, None, {})

  /** The random secret always has the shape the token format needs. */
  predicate Enabled(step: Step) { step.Generate? ==> IsSecret(step.secret) }

  ghost function Apply(s: State, step: Step, hash: string -> string): State {
    match step
    case Generate(id, secret) =>
      var f := Generated(s.file, id, hash(Token(id, secret)));
      if f.None? then s else s.(file := f.value, issued := s.issued + {Token(id, secret)})
    case Revoke(id) =>
      var f := Revoked(s.file, id);
      if f.None? then s else s.(file := f.value)
    case Restart => s.(loaded := Reloaded(None, s.file))
    case Reload => s.(loaded := Reloaded(s.loaded, s.file))
    case Clear => s.(loaded := None)
  }

  ghost function From(s: State, steps: seq<Step>, hash: string -> string): State {
    if steps == [] then s else Apply(From(s, steps[..|steps| - 1], hash), steps[|steps| - 1], hash)
  }

  ghost function After(steps: seq<Step>, hash: string -> string): State { From(Init, steps, hash) }

  ghost predicate AllEnabled(steps: seq<Step>) { forall i :: 0 <= i < |steps| ==> Enabled(steps[i]) }

  /** A digest stored under `id` is that of a token issued for `id`. */
  ghost predicate Issued(issued: set<string>, hash: string -> string, id: string, digest: string) {
    exists secret :: IsSecret(secret) && Token(id, secret) in issued && digest == hash(Token(id, secret))
  }

  ghost predicate RecordsIssued(rs: seq<Record>, issued: set<string>, hash: string -> string) {
    ValidRecords(rs) && forall r :: r in rs ==> Issued(issued, hash, r.id, r.sha256)
  }

  ghost predicate Inv(s: State, hash: string -> string) {
    && (s.file.Missing? ||
        exists rs :: s.file == Document(DocumentOf(rs)) && RecordsIssued(rs, s.issued, hash))
    && (s.loaded.Some? ==> forall id :: id in s.loaded.value ==> Issued(s.issued, hash, id, s.loaded.value[id]))
  }

  lemma StoreRecords(s: State, hash: string -> string) returns (rs: seq<Record>)
    requires Inv(s, hash) && !s.file.Missing?
    ensures s.file == Document(DocumentOf(rs)) && RecordsIssued(rs, s.issued, hash)
    ensures Loaded(s.file, false) == Some(rs)
    ensures Loaded(s.file, true) == if rs == [] then None else Some(rs)
  {
    rs :| s.file == Document(DocumentOf(rs)) && RecordsIssued(rs, s.issued, hash);
    LoadedIs(s.file, false, rs);
    if rs != [] {
      LoadedIs(s.file, true, rs);
    } else if Loaded(s.file, true).Some? {
      DocumentInjective(rs, Loaded(s.file, true).value);
    }
  }

  lemma GenerateStep(s: State, id: string, secret: string, hash: string -> string)
    requires Inv(s, hash) && IsHash(hash) && IsSecret(secret)
    ensures Inv(Apply(s, Generate(id, secret), hash), hash)
  {
    var token := Token(id, secret);
    var rs: seq<Record> := [];
    if !s.file.Missing? {
      rs := StoreRecords(s, hash);
    }
    if IsKeyId(id) && !HasId(rs, id) {
      var r := Record(id, hash(token));
      var s' := Apply(s, Generate(id, secret), hash);
      forall q | q in rs ensures q.id != id {
        var i :| 0 <= i < |rs| && rs[i] == q;
      }
      ValidSnoc(rs, r);
      IssuedGrows(s, s', hash);
      assert Issued(s'.issued, hash, id, hash(token));
      forall q | q in rs ensures Issued(s'.issued, hash, q.id, q.sha256) {
        assert Issued(s.issued, hash, q.id, q.sha256);
      }
      assert RecordsIssued(rs + [r], s'.issued, hash);
    }
  }

  lemma IssuedGrows(s: State, s': State, hash: string -> string)
    requires s.issued <= s'.issued
    ensures forall id, d :: Issued(s.issued, hash, id, d) ==> Issued(s'.issued, hash, id, d)
  {
    forall id, d | Issued(s.issued, hash, id, d) ensures Issued(s'.issued, hash, id, d) {
      var secret :| IsSecret(secret) && Token(id, secret) in s.issued && d == hash(Token(id, secret));
      assert Token(id, secret) in s'.issued;
    }
  }

  lemma RevokeStep(s: State, id: string, hash: string -> string)
    requires Inv(s, hash)
    ensures Inv(Apply(s, Revoke(id), hash), hash)
  {
    if !s.file.Missing? {
      var rs := StoreRecords(s, hash);
      WithoutValid(rs, id);
      WithoutMembers(rs, id);
      assert RecordsIssued(Without(rs, id), s.issued, hash);
    }
  }

  lemma LoadStep(s: State, hash: string -> string)
    requires Inv(s, hash)
    ensures Inv(Apply(s, Restart, hash), hash) && Inv(Apply(s, Reload, hash), hash)
  {
    if !s.file.Missing? {
      var rs := StoreRecords(s, hash);
      AsMapIs(rs);
      forall id | id in AsMap(rs) ensures Issued(s.issued, hash, id, AsMap(rs)[id]) {
        assert Record(id, AsMap(rs)[id]) in rs;
      }
    }
  }

  lemma InvStep(s: State, step: Step, hash: string -> string)
    requires Inv(s, hash) && Enabled(step) && IsHash(hash)
    ensures Inv(Apply(s, step, hash), hash)
  {
    match step
    case Generate(id, secret) => GenerateStep(s, id, secret, hash);
    case Revoke(id) => RevokeStep(s, id, hash);
    case Restart => LoadStep(s, hash);
    case Reload => LoadStep(s, hash);
    case Clear =>
  }

  lemma {:induction false} InvFrom(s: State, steps: seq<Step>, hash: string -> string)
    requires Inv(s, hash) && AllEnabled(steps) && IsHash(hash)
    ensures Inv(From(s, steps, hash), hash)
    decreases |steps|
  {
    if steps != [] {
      var n := |steps| - 1;
      InvFrom(s, steps[..n], hash);
      InvStep(From(s, steps[..n], hash), steps[n], hash);
    }
  }

  lemma InvRun(steps: seq<Step>, hash: string -> string)
    requires AllEnabled(steps) && IsHash(hash)
    ensures Inv(After(steps, hash), hash)
  {
    InvFrom(Init, steps, hash);
  }

  /** Over any sequence of generating, revoking and loading, a store that exists always validates, to
      records with distinct valid ids whose digests are those of tokens issued for these ids. */
  lemma StoreAlwaysValidates(steps: seq<Step>, hash: string -> string)
    requires AllEnabled(steps) && IsHash(hash) && !After(steps, hash).file.Missing?
    ensures var s := After(steps, hash);
            Loaded(s.file, false).Some? && RecordsIssued(Loaded(s.file, false).value, s.issued, hash)
  {
    InvRun(steps, hash);
    var rs := StoreRecords(After(steps, hash), hash);
  }

  /** An issued token sent as `Bearer id.secret` is accepted as its own id exactly while the record
      loaded under that id carries its digest. */
  lemma IssuedTokenAcceptedIff(s: State, hash: string -> string, id: string, secret: string)
    requires IsHash(hash) && IsKeyId(id) && IsSecret(secret)
    ensures Authenticate(true, s.loaded, hash, [("Authorization", "Bearer " + Token(id, secret))]) == Some(id) <==>
            s.loaded.Some? && id in s.loaded.value && s.loaded.value[id] == hash(Token(id, secret))
  {
    var headers := [("Authorization", "Bearer " + Token(id, secret))];
    BearerHeader(id, secret);
    ParsePresented(headers, id, secret);
  }

  lemma BearerHeader(id: string, secret: string)
    requires IsKeyId(id) && IsSecret(secret)
    ensures Presents([("Authorization", "Bearer " + Token(id, secret))], id, secret)
  {
    var value := "Bearer " + Token(id, secret);
    var headers := [("Authorization", value)];
    assert Lower("Authorization") == "authorization";
    assert Lower("Bearer") == "bearer";
    assert OnlyAuthorization(headers, 0);
    assert value == "Bearer" + " " + Token(id, secret);
    assert BearerValue(headers[0].1, id, secret);
  }

  /** Nobody gets in without an issued token whose record is loaded, assuming no digest collision
      between the presented token and the issued ones. */
  lemma AcceptedTokenWasIssued(steps: seq<Step>, hash: string -> string, headers: Headers, id: string)
    requires AllEnabled(steps) && IsHash(hash)
    requires Authenticate(true, After(steps, hash).loaded, hash, headers) == Some(id)
    requires Credentials(headers).Some?
    requires var (presentedId, secret) := Credentials(headers).value;
             Collisionless(hash, After(steps, hash).issued + {Token(presentedId, secret)})
    ensures var s := After(steps, hash);
            exists secret :: Presents(headers, id, secret) && Token(id, secret) in s.issued &&
                             s.loaded.Some? && id in s.loaded.value && s.loaded.value[id] == hash(Token(id, secret))
  {
    InvRun(steps, hash);
    var s := After(steps, hash);
    ParsedWasPresented(headers);
    var secret := Credentials(headers).value.1;
    assert Issued(s.issued, hash, id, s.loaded.value[id]);
    var used :| IsSecret(used) && Token(id, used) in s.issued && s.loaded.value[id] == hash(Token(id, used));
    assert Token(id, secret) == Token(id, used);
    assert Presents(headers, id, secret);
  }

  // ---- an issued key stays until it is revoked ----

  /** The store holds this record. */
  ghost predicate Kept(f: File, r: Record) { exists rs :: Stores(f, rs) && r in rs }

  lemma KeptRecords(s: State, hash: string -> string, r: Record) returns (rs: seq<Record>)
    requires Inv(s, hash) && Kept(s.file, r)
    ensures Stores(s.file, rs) && r in rs && Loaded(s.file, false) == Some(rs) && Loaded(s.file, true) == Some(rs)
  {
    rs :| Stores(s.file, rs) && r in rs;
    StoresLoads(s.file, rs);
  }

  lemma GeneratedIsKept(s: State, hash: string -> string, id: string, secret: string)
    requires Inv(s, hash) && IsHash(hash) && Generated(s.file, id, hash(Token(id, secret))).Some?
    ensures Kept(Apply(s, Generate(id, secret), hash).file, Record(id, hash(Token(id, secret))))
  {
    var r := Record(id, hash(Token(id, secret)));
    var rs: seq<Record> := [];
    if !s.file.Missing? {
      rs := StoreRecords(s, hash);
    }
    GeneratedStores(rs, id, r.sha256);
    assert r in rs + [r];
  }

  lemma KeptByGenerate(s: State, id: string, secret: string, hash: string -> string, r: Record)
    requires Inv(s, hash) && IsHash(hash) && Kept(s.file, r)
    ensures Kept(Apply(s, Generate(id, secret), hash).file, r)
  {
    var rs := KeptRecords(s, hash, r);
    var digest := hash(Token(id, secret));
    if Generated(s.file, id, digest).Some? {
      GeneratedStores(rs, id, digest);
      assert r in rs + [Record(id, digest)];
    }
  }

  lemma KeptByRevoke(s: State, id: string, hash: string -> string, r: Record)
    requires Inv(s, hash) && Kept(s.file, r) && r.id != id
    ensures Kept(Apply(s, Revoke(id), hash).file, r)
  {
    var rs := KeptRecords(s, hash, r);
    WithoutValid(rs, id);
    WithoutMembers(rs, id);
    assert Revoked(s.file, id).Some? ==> Stores(Apply(s, Revoke(id), hash).file, Without(rs, id));
  }

  lemma {:induction false} KeptRun(s: State, later: seq<Step>, hash: string -> string, r: Record)
    requires Inv(s, hash) && AllEnabled(later) && IsHash(hash) && Kept(s.file, r) && Revoke(r.id) !in later
    ensures Kept(From(s, later, hash).file, r)
    decreases |later|
  {
    if later != [] {
      var n := |later| - 1;
      var mid := From(s, later[..n], hash);
      KeptRun(s, later[..n], hash, r);
      InvFrom(s, later[..n], hash);
      match later[n]
      case Generate(id, secret) => KeptByGenerate(mid, id, secret, hash, r);
      case Revoke(id) => KeptByRevoke(mid, id, hash, r);
      case _ =>
    }
  }

  lemma KeptIsLoaded(s: State, hash: string -> string, r: Record)
    requires Inv(s, hash) && Kept(s.file, r)
    ensures Holds(Apply(s, Restart, hash).loaded, r.id, r.sha256)
    ensures Holds(Apply(s, Reload, hash).loaded, r.id, r.sha256)
  {
    var rs := KeptRecords(s, hash, r);
    AsMapIs(rs);
  }

  /** In every run: a token whose key was generated and whose id has not been revoked since is accepted as
      its id after the next start or reload, whatever other keys were generated or revoked meanwhile. */
  lemma IssuedStaysAccepted(before: seq<Step>, later: seq<Step>, hash: string -> string,
                            id: string, secret: string, headers: Headers)
    requires AllEnabled(before) && AllEnabled(later) && IsHash(hash) && IsSecret(secret)
    requires Generated(After(before, hash).file, id, hash(Token(id, secret))).Some?
    requires Revoke(id) !in later && Presents(headers, id, secret)
    ensures var s := From(Apply(After(before, hash), Generate(id, secret), hash), later, hash);
      && Authenticate(true, Apply(s, Restart, hash).loaded, hash, headers) == Some(id)
      && Authenticate(true, Apply(s, Reload, hash).loaded, hash, headers) == Some(id)
  {
    var s0, r := After(before, hash), Record(id, hash(Token(id, secret)));
    InvRun(before, hash);
    GenerateStep(s0, id, secret, hash);
    GeneratedIsKept(s0, hash, id, secret);
    var s1 := Apply(s0, Generate(id, secret), hash);
    KeptRun(s1, later, hash, r);
    InvFrom(s1, later, hash);
    KeptIsLoaded(From(s1, later, hash), hash, r);
    ParsePresented(headers, id, secret);
  }

  // ---- revocation ----

  /** The store holds no record of this id with this digest. */
  ghost predicate Absent(f: File, id: string, digest: string) {
    forall rs :: f == Document(DocumentOf(rs)) ==> Record(id, digest) !in rs
  }

  lemma AbsentIs(f: File, rs: seq<Record>, id: string, digest: string)
    requires f == Document(DocumentOf(rs)) && Record(id, digest) !in rs
    ensures Absent(f, id, digest)
  {
    forall qs | f == Document(DocumentOf(qs)) ensures qs == rs {
      DocumentInjective(qs, rs);
    }
  }

  lemma RevokedIsAbsent(s: State, hash: string -> string, id: string, digest: string)
    requires Inv(s, hash) && Revoked(s.file, id).Some?
    ensures Absent(Apply(s, Revoke(id), hash).file, id, digest)
  {
    var rs := StoreRecords(s, hash);
    WithoutMembers(rs, id);
    AbsentIs(Apply(s, Revoke(id), hash).file, Without(rs, id), id, digest);
  }

  /** A generated key puts the record back only if it is for this id and has this digest. */
  ghost predicate Restores(step: Step, hash: string -> string, id: string, digest: string) {
    step.Generate? && step.id == id && hash(Token(id, step.secret)) == digest
  }

  lemma AbsentStep(s: State, step: Step, hash: string -> string, id: string, digest: string)
    requires Inv(s, hash) && Absent(s.file, id, digest) && !Restores(step, hash, id, digest)
    ensures Absent(Apply(s, step, hash).file, id, digest)
  {
    var f := Apply(s, step, hash).file;
    if f != s.file {
      var rs: seq<Record> := [];
      if !s.file.Missing? {
        rs := StoreRecords(s, hash);
      }
      match step
      case Generate(g, secret) =>
        AbsentIs(f, rs + [Record(g, hash(Token(g, secret)))], id, digest);
      case Revoke(g) =>
        WithoutMembers(rs, g);
        AbsentIs(f, Without(rs, g), id, digest);
      case _ =>
    }
  }

  lemma AbsentIsNotLoaded(s: State, hash: string -> string, id: string, digest: string)
    requires Inv(s, hash) && Absent(s.file, id, digest) && Loaded(s.file, true).Some?
    ensures !Holds(Some(AsMap(Loaded(s.file, true).value)), id, digest)
  {
    var rs := StoreRecords(s, hash);
    AsMapIs(rs);
  }

  /** The step replaces the view: a restart or a clear always does, a reload when it succeeds. */
  ghost predicate Refreshes(s: State, step: Step) {
    step.Restart? || step.Clear? || (step.Reload? && Loaded(s.file, true).Some?)
  }

  /** The view is replaced at some step of the run. */
  ghost predicate Refreshed(s: State, steps: seq<Step>, hash: string -> string)
    decreases |steps|
  {
    steps != [] &&
    (var n := |steps| - 1;
     Refreshed(s, steps[..n], hash) || Refreshes(From(s, steps[..n], hash), steps[n]))
  }

  /** While the record is absent from the store, the view goes on holding it until it is replaced. */
  lemma HoldsStep(s: State, step: Step, hash: string -> string, id: string, digest: string)
    requires Inv(s, hash) && Absent(s.file, id, digest)
    ensures Holds(Apply(s, step, hash).loaded, id, digest) <==> !Refreshes(s, step) && Holds(s.loaded, id, digest)
  {
    if Loaded(s.file, true).Some? {
      AbsentIsNotLoaded(s, hash, id, digest);
    }
  }

  ghost predicate NotRestored(steps: seq<Step>, hash: string -> string, id: string, digest: string) {
    forall i :: 0 <= i < |steps| ==> !Restores(steps[i], hash, id, digest)
  }

  /** How things stand after a revocation: the record is gone from the store, and the view holds it if
      and only if it did then and has not been replaced. */
  ghost predicate Since(s: State, view: Option<map<string, string>>, refreshed: bool, id: string, digest: string) {
    Absent(s.file, id, digest) && (Holds(s.loaded, id, digest) <==> !refreshed && Holds(view, id, digest))
  }

  lemma SinceStep(s: State, step: Step, hash: string -> string, view: Option<map<string, string>>,
                  refreshed: bool, id: string, digest: string)
    requires Inv(s, hash) && Since(s, view, refreshed, id, digest) && !Restores(step, hash, id, digest)
    ensures Since(Apply(s, step, hash), view, refreshed || Refreshes(s, step), id, digest)
  {
    AbsentStep(s, step, hash, id, digest);
    HoldsStep(s, step, hash, id, digest);
  }

  lemma {:induction false} SinceRun(s: State, later: seq<Step>, hash: string -> string,
                                    view: Option<map<string, string>>, id: string, digest: string)
    requires Inv(s, hash) && AllEnabled(later) && IsHash(hash)
    requires Since(s, view, false, id, digest) && NotRestored(later, hash, id, digest)
    ensures Since(From(s, later, hash), view, Refreshed(s, later, hash), id, digest)
    decreases |later|
  {
    if later != [] {
      var n := |later| - 1;
      SinceRun(s, later[..n], hash, view, id, digest);
      InvFrom(s, later[..n], hash);
      SinceStep(From(s, later[..n], hash), later[n], hash, view, Refreshed(s, later[..n], hash), id, digest);
    }
  }

  /** A revoked token, in every run up to a successful revocation and every continuation: it is accepted
      if and only if the view has not been replaced since and held its digest when it was revoked. The
      id may be issued anew meanwhile; only a new token for it with the very same digest is excluded. */
  lemma RevokedTokenAcceptedIff(before: seq<Step>, later: seq<Step>, hash: string -> string,
                                id: string, secret: string, headers: Headers)
    requires AllEnabled(before) && AllEnabled(later) && IsHash(hash)
    requires Revoked(After(before, hash).file, id).Some? && Presents(headers, id, secret)
    requires NotRestored(later, hash, id, hash(Token(id, secret)))
    ensures var revoked := Apply(After(before, hash), Revoke(id), hash);
            Authenticate(true, From(revoked, later, hash).loaded, hash, headers) == Some(id) <==>
            !Refreshed(revoked, later, hash) && Holds(After(before, hash).loaded, id, hash(Token(id, secret)))
  {
    var s, digest := After(before, hash), hash(Token(id, secret));
    InvRun(before, hash);
    RevokeStep(s, id, hash);
    RevokedIsAbsent(s, hash, id, digest);
    SinceRun(Apply(s, Revoke(id), hash), later, hash, s.loaded, id, digest);
    ParsePresented(headers, id, secret);
  }

  /** In every continuation in which the view is replaced and the id is not issued anew, no request at
      all is accepted as that id. */
  lemma RevokedIdIsRejected(before: seq<Step>, later: seq<Step>, hash: string -> string, id: string, headers: Headers)
    requires AllEnabled(before) && AllEnabled(later) && IsHash(hash) && Revoked(After(before, hash).file, id).Some?
    requires Refreshed(Apply(After(before, hash), Revoke(id), hash), later, hash)
    requires forall i :: 0 <= i < |later| ==> !(later[i].Generate? && later[i].id == id)
    ensures var revoked := Apply(After(before, hash), Revoke(id), hash);
            Authenticate(true, From(revoked, later, hash).loaded, hash, headers) != Some(id)
  {
    if Credentials(headers).Some? && Credentials(headers).value.0 == id {
      ParsedWasPresented(headers);
      RevokedTokenAcceptedIff(before, later, hash, id, Credentials(headers).value.1, headers);
    }
  }

  /** Revoking the key of a one-key store leaves a store that no load accepts; any other revocation
      leaves one that every load accepts. */
  lemma ReloadFailsIffLastKey(s: State, hash: string -> string, id: string)
    requires Inv(s, hash) && Revoked(s.file, id).Some?
    ensures Loaded(s.file, false).Some?
    ensures Loaded(Revoked(s.file, id).value, true).None? <==> |Loaded(s.file, false).value| == 1
  {
    var rs := StoreRecords(s, hash);
    var remaining := Without(rs, id);
    RevokeStep(s, id, hash);
    var s' := Apply(s, Revoke(id), hash);
    var qs := StoreRecords(s', hash);
    DocumentInjective(qs, remaining);
    OneRecordLess(rs, id);
  }

  lemma {:induction false} OneRecordLess(rs: seq<Record>, id: string)
    requires ValidRecords(rs)
    ensures |Without(rs, id)| == |rs| - if HasId(rs, id) then 1 else 0
    decreases |rs|
  {
    if rs != [] {
      var n := |rs| - 1;
      OneRecordLess(rs[..n], id);
      if HasId(rs[..n], id) {
        var i :| 0 <= i < n && rs[..n][i].id == id;
        assert rs[i].id == id;
      }
    }
  }

  /** A live authenticator that reloads right after a revocation still accepts the revoked token if and
      only if its view held the token and the revoked key was the store's last: the reload then fails
      and the old view stays. */
  lemma LiveReloadAcceptsIff(s: State, hash: string -> string, id: string, secret: string, headers: Headers)
    requires Inv(s, hash) && IsHash(hash) && Revoked(s.file, id).Some? && Presents(headers, id, secret)
    ensures Loaded(s.file, false).Some?
    ensures Authenticate(true, Reloaded(s.loaded, Revoked(s.file, id).value), hash, headers) == Some(id) <==>
            |Loaded(s.file, false).value| == 1 && Holds(s.loaded, id, hash(Token(id, secret)))
  {
    ReloadFailsIffLastKey(s, hash, id);
    ParsePresented(headers, id, secret);
    var s' := Apply(s, Revoke(id), hash);
    RevokeStep(s, id, hash);
    RevokedIsAbsent(s, hash, id, hash(Token(id, secret)));
    if Loaded(s'.file, true).Some? {
      AbsentIsNotLoaded(s', hash, id, hash(Token(id, secret)));
    }
  }

  /** A store of one key, loaded. */
  function OneKey(hash: string -> string, id: string, secret: string): State {
    var digest := hash(Token(id, secret));
    State(Document(DocumentOf([Record(id, digest)])), Some(map[id := digest]), {Token(id, secret)})
  }

  lemma OneKeyStore(hash: string -> string, id: string, secret: string)
    requires IsHash(hash) && IsKeyId(id) && IsSecret(secret)
    ensures var s := OneKey(hash, id, secret);
      && Inv(s, hash) && Revoked(s.file, id).Some?
      && Loaded(s.file, true) == Loaded(s.file, false) == Some([Record(id, hash(Token(id, secret)))])
  {
    var s := OneKey(hash, id, secret);
    var rs := [Record(id, hash(Token(id, secret)))];
    assert ValidRecords(rs);
    LoadedIs(s.file, true, rs);
    LoadedIs(s.file, false, rs);
    assert HasId(rs, id) by { assert rs[0].id == id; }
    assert Issued(s.issued, hash, id, hash(Token(id, secret)));
    assert RecordsIssued(rs, s.issued, hash);
  }

  lemma OneKeyIsReached(hash: string -> string, id: string, secret: string)
    requires IsHash(hash) && IsKeyId(id) && IsSecret(secret)
    ensures Apply(Apply(Init, Generate(id, secret), hash), Restart, hash) == OneKey(hash, id, secret)
  {
    OneKeyStore(hash, id, secret);
    var r := Record(id, hash(Token(id, secret)));
    assert [] + [r] == [r];
    assert AsMap([r]) == AsMap([r][..0])[id := r.sha256];
  }

  /** Where the last key is revoked: generated, loaded at start-up, revoked and reloaded, its token is
      still accepted. */
  lemma LastKeyOutlivesReload(hash: string -> string, id: string, secret: string)
    requires IsHash(hash) && IsKeyId(id) && IsSecret(secret)
    ensures var started := Apply(Apply(Init, Generate(id, secret), hash), Restart, hash);
            var s := Apply(Apply(started, Revoke(id), hash), Reload, hash);
            Authenticate(true, s.loaded, hash, [("Authorization", "Bearer " + Token(id, secret))]) == Some(id)
  {
    OneKeyIsReached(hash, id, secret);
    OneKeyStore(hash, id, secret);
    BearerHeader(id, secret);
    LiveReloadAcceptsIff(OneKey(hash, id, secret), hash, id, secret,
                         [("Authorization", "Bearer " + Token(id, secret))]);
  }

  class ApiKeyAuthenticator {
    const required: bool
    var digests: Option<map<string, string>>

    constructor (required: bool)
      ensures this.required == required && digests == if required then None else Some(map[])
    {
      this.required := required;
      digests := if required then None else Some(map[]);
    }

    /** `ok` is false when the store is missing, malformed or empty; the view is then unchanged. */
    method Load(f: File) returns (ok: bool)
      modifies this
      ensures ok == (!required || Loaded(f, true).Some?)
      ensures digests == if !required then Some(map[]) else Reloaded(old(digests), f)
    {
      if !required {
        digests := Some(map[]);
        return true;
      }
      var records := LoadFile(f, true);
      if records.None? {
        return false;
      }
      var view: map<string, string> := map[];
      for i := 0 to |records.value|
        invariant view == AsMap(records.value[..i]) && digests == old(digests)
      {
        assert records.value[..i + 1][..i] == records.value[..i];
        view := view[records.value[i].id := records.value[i].sha256];
      }
      assert records.value[..|records.value|] == records.value;
      digests := Some(view);
      return true;
    }

    method Clear()
      modifies this
      ensures digests == if required then None else Some(map[])
    {
      digests := if !required then Some(map[]) else None;
    }
  }

  /** An operator revokes a key and has the running server load the store again. The revoked token is
      then accepted if and only if the load failed and the old view held the token's digest. */
  method RevokeAndReload(keys: KeyFile, auth: ApiKeyAuthenticator, id: string,
                         ghost issued: set<string>, ghost hash: string -> string)
    returns (revoked: bool, loaded: bool)
    requires auth.required && IsHash(hash) && Inv(State(keys.file, auth.digests, issued), hash)
    modifies keys, auth
    ensures revoked == Revoked(old(keys.file), id).Some?
    ensures revoked ==> forall secret, headers: Headers {:trigger Presents(headers, id, secret)} ::
      Presents(headers, id, secret) ==>
        (Authenticate(true, auth.digests, hash, headers) == Some(id) <==>
         !loaded && Holds(old(auth.digests), id, hash(Token(id, secret))))
  {
    ghost var s := State(keys.file, auth.digests, issued);
    revoked := keys.RevokeKey(id);
    loaded := auth.Load(keys.file);
    if revoked {
      ReloadFailsIffLastKey(s, hash, id);
      forall secret, headers: Headers | Presents(headers, id, secret)
        ensures Authenticate(true, auth.digests, hash, headers) == Some(id) <==>
                !loaded && Holds(old(auth.digests), id, hash(Token(id, secret)))
      {
        LiveReloadAcceptsIff(s, hash, id, secret, headers);
      }
    }
  }
}
