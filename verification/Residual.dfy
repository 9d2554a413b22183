/** Fields an older reader does not know are kept aside when an envelope is decoded and
    written back when it is encoded, for the envelope and for each of its attempts. JSON objects
    are lists of members; text and number syntax is left out. */
module Residual {
  import opened Spi
  import opened Ordering

  datatype Json = Raw(text: string) | List(items: seq<Json>) | Object(members: seq<Member>)

  datatype Member = Member(key: string, value: Json)

  type Fields = map<string, Json>

  // ---------- reading objects ----------

  /** Into a map: a repeated key keeps its last value. */
  function ToMap(members: seq<Member>): Fields
    decreases |members|
  {
    if members == [] then map[]
    else
      var last := members[|members| - 1];
      ToMap(members[..|members| - 1])[last.key := last.value]
  }

  /** Upper and lower case alike; two letters outside ASCII fold into it. */
  function FoldChar(c: char): char {
    if 'A' <= c <= 'Z' then ((c as int) + 32) as char
    else if c == '\U{17F}' then 's'
    else if c == '\U{212A}' then 'k'
    else c
  }

  function Fold(s: string): (r: string)
    ensures |r| == |s|
  {
    seq(|s|, i requires 0 <= i < |s| => FoldChar(s[i]))
  }

  predicate SameName(a: string, b: string) { Fold(a) == Fold(b) }

  function FoldMatch(names: seq<string>, key: string): (r: Option<string>)
    ensures r.Some? ==> r.value in names && SameName(r.value, key)
    ensures r.None? ==> forall n :: n in names ==> !SameName(n, key)
  {
    if names == [] then None
    else if SameName(names[0], key) then Some(names[0])
    else FoldMatch(names[1..], key)
  }

  /** The struct field a key is decoded into: an exact match, or else one ignoring case. */
  function FieldFor(names: seq<string>, key: string): (r: Option<string>)
    ensures key in names ==> r == Some(key)
    ensures r.Some? ==> r.value in names && SameName(r.value, key)
    ensures r.None? <==> forall n :: n in names ==> !SameName(n, key)
  {
    if key in names then Some(key) else FoldMatch(names, key)
  }

  /** Into a struct: members in order, a later one overwriting an earlier one. */
  function DecodeKnown(names: seq<string>, members: seq<Member>): Fields
    decreases |members|
  {
    if members == [] then map[]
    else
      var last := members[|members| - 1];
      var rest := DecodeKnown(names, members[..|members| - 1]);
      var field := FieldFor(names, last.key);
      if field.None? then rest else rest[field.value := last.value]
  }

  // ---------- writing objects ----------

  /** The known fields in struct order, absent ones omitted. */
  function Emit(names: seq<string>, fields: Fields): (r: seq<Member>)
    decreases |names|
  {
    if names == [] then []
    else
      var last := names[|names| - 1];
      Emit(names[..|names| - 1], fields) + if last in fields then [Member(last, fields[last])] else []
  }

  function MembersOf(fields: Fields, keys: seq<Key>): (r: seq<Member>)
    requires forall k :: k in keys ==> k.id in fields
    ensures |r| == |keys| && forall i :: 0 <= i < |keys| ==> r[i] == Member(keys[i].id, fields[keys[i].id])
  {
    seq(|keys|, i requires 0 <= i < |keys| => assert keys[i] in keys; Member(keys[i].id, fields[keys[i].id]))
  }

  function NameKeys(fields: Fields): set<Key> { set k | k in fields :: Key(0, k) }

  lemma ListedNames(fields: Fields)
    ensures forall k :: k in Listing(NameKeys(fields)) ==> k.id in fields
    ensures forall k :: k in fields ==> Key(0, k) in Listing(NameKeys(fields))
  {
    hide Listing;
    assert forall k :: k in Listing(NameKeys(fields)) <==> k in Elements(Listing(NameKeys(fields)));
  }

  /** The residual members, sorted by key. */
  ghost function SortedMembers(residual: Fields): seq<Member> {
    ListedNames(residual);
    MembersOf(residual, Listing(NameKeys(residual)))
  }

  ghost function Append(known: seq<Member>, residual: Fields): seq<Member> { known + SortedMembers(residual) }

  function Capture(members: seq<Member>, names: seq<string>): Fields { ToMap(members) - (set n | n in names) }

  method SortedKeys(fields: Fields) returns (keys: seq<Key>)
    ensures keys == Listing(NameKeys(fields))
  {
    hide Listing, Sort;
    keys := [];
    var rest := fields.Keys;
    while rest != {}
      invariant rest <= fields.Keys
      invariant Distinct(keys)
      invariant forall k :: k in keys <==> k.at == 0 && k.id in fields && k.id !in rest
      decreases rest
    {
      var k :| k in rest;
      rest := rest - {k};
      keys := keys + [Key(0, k)];
    }
    assert Elements(keys) == NameKeys(fields);
    SortIsListing(keys);
    keys := Sort(keys);
  }

  method AppendResidual(known: seq<Member>, residual: Fields) returns (out: seq<Member>)
    ensures out == Append(known, residual)
  {
    hide Listing, NameKeys, MembersOf;
    var keys := SortedKeys(residual);
    ListedNames(residual);
    out := known;
    ghost var added := MembersOf(residual, keys);
    var i := 0;
    while i < |keys|
      invariant 0 <= i <= |keys|
      invariant out == known + added[..i]
    {
      assert keys[i] in keys;
      assert added[..i + 1] == added[..i] + [added[i]];
      out := out + [Member(keys[i].id, residual[keys[i].id])];
      i := i + 1;
    }
    assert added[..i] == added;
  }

  method CaptureResidual(members: seq<Member>, names: seq<string>) returns (residual: Fields)
    ensures residual == Capture(members, names)
  {
    var all := ToMap(members);
    residual := all;
    var rest := all.Keys;
    while rest != {}
      invariant rest <= all.Keys
      invariant residual == all - (set n | n in names && n !in rest)
      decreases rest
    {
      var k :| k in rest;
      rest := rest - {k};
      if k in names {
        residual := residual - {k};
      }
    }
  }

  // ---------- one object ----------

  lemma {:induction false} ToMapConcat(a: seq<Member>, b: seq<Member>)
    ensures ToMap(a + b) == ToMap(a) + ToMap(b)
    decreases |b|
  {
    if b == [] {
      assert a + b == a;
    } else {
      var n := |b| - 1;
      ToMapConcat(a, b[..n]);
      assert (a + b)[..|a + b| - 1] == a + b[..n];
    }
  }

  lemma {:induction false} DecodeConcat(names: seq<string>, a: seq<Member>, b: seq<Member>)
    ensures DecodeKnown(names, a + b) == DecodeKnown(names, a) + DecodeKnown(names, b)
    decreases |b|
  {
    hide FieldFor;
    if b == [] {
      assert a + b == a;
    } else {
      var n := |b| - 1;
      DecodeConcat(names, a, b[..n]);
      assert (a + b)[..|a + b| - 1] == a + b[..n];
    }
  }

  lemma {:induction false} MembersToMap(fields: Fields, keys: seq<Key>)
    requires forall k :: k in keys ==> k.id in fields
    ensures ToMap(MembersOf(fields, keys)) == map k | k in fields && (exists x :: x in keys && x.id == k) :: fields[k]
    decreases |keys|
  {
    if keys != [] {
      var n := |keys| - 1;
      assert MembersOf(fields, keys)[..n] == MembersOf(fields, keys[..n]);
      assert keys == keys[..n] + [keys[n]];
      MembersToMap(fields, keys[..n]);
    }
  }

  lemma SortedToMap(residual: Fields)
    ensures ToMap(SortedMembers(residual)) == residual
    ensures forall m :: m in SortedMembers(residual) ==> m.key in residual && m.value == residual[m.key]
    ensures forall k :: k in residual ==> exists m :: m in SortedMembers(residual) && m.key == k
  {
    hide Listing;
    ListedNames(residual);
    var keys := Listing(NameKeys(residual));
    MembersToMap(residual, keys);
    forall k | k in residual ensures exists m :: m in SortedMembers(residual) && m.key == k {
      assert Key(0, k) in keys;
      var i :| 0 <= i < |keys| && keys[i] == Key(0, k);
      assert SortedMembers(residual)[i].key == k;
    }
  }

  function Restrict(fields: Fields, names: seq<string>): Fields { map k | k in fields && k in names :: fields[k] }

  lemma RestrictMore(fields: Fields, names: seq<string>, last: string)
    ensures Restrict(fields, names + [last]) ==
            if last in fields then Restrict(fields, names)[last := fields[last]] else Restrict(fields, names)
  {
  }

  lemma DecodeOne(names: seq<string>, members: seq<Member>, m: Member)
    requires m.key in names
    ensures DecodeKnown(names, members + [m]) == DecodeKnown(names, members)[m.key := m.value]
  {
    assert (members + [m])[..|members|] == members;
  }

  lemma {:induction false} EmitReads(names: seq<string>, some: seq<string>, fields: Fields)
    requires forall n :: n in some ==> n in names
    ensures DecodeKnown(names, Emit(some, fields)) == Restrict(fields, some)
    decreases |some|
  {
    hide Restrict, DecodeKnown;
    if some == [] {
      NothingRead(names, fields);
    } else {
      var n := |some| - 1;
      var init, last := some[..n], some[n];
      assert some == init + [last];
      EmitReads(names, init, fields);
      RestrictMore(fields, init, last);
      if last in fields {
        DecodeOne(names, Emit(init, fields), Member(last, fields[last]));
      } else {
        assert Emit(some, fields) == Emit(init, fields);
      }
    }
  }

  lemma NothingRead(names: seq<string>, fields: Fields)
    ensures DecodeKnown(names, []) == map[] == Restrict(fields, [])
  {
  }

  lemma {:induction false} EmitKeys(some: seq<string>, fields: Fields)
    ensures forall m :: m in Emit(some, fields) ==> m.key in some
    decreases |some|
  {
    if some != [] {
      EmitKeys(some[..|some| - 1], fields);
    }
  }

  lemma {:induction false} MapKeys(members: seq<Member>, k: string)
    ensures k in ToMap(members) ==> exists m :: m in members && m.key == k
    decreases |members|
  {
    if members != [] {
      MapKeys(members[..|members| - 1], k);
    }
  }

  /** No residual key is the name of a field, even ignoring case. */
  predicate Apart(names: seq<string>, keys: set<string>) {
    forall k, n :: k in keys && n in names ==> !SameName(n, k)
  }

  lemma {:induction false} DecodesNothing(names: seq<string>, members: seq<Member>)
    requires forall m :: m in members ==> FieldFor(names, m.key).None?
    ensures DecodeKnown(names, members) == map[]
    decreases |members|
  {
    if members != [] {
      var n := |members| - 1;
      assert members[n] in members;
      DecodesNothing(names, members[..n]);
    }
  }

  /** The residual comes back exactly when none of its keys is a known name. */
  lemma CaptureAfterAppend(names: seq<string>, known: seq<Member>, residual: Fields)
    requires ToMap(known).Keys <= set n | n in names
    ensures Capture(Append(known, residual), names) == residual <==> forall k :: k in residual ==> k !in names
  {
    ToMapConcat(known, SortedMembers(residual));
    SortedToMap(residual);
  }

  /** The known fields are untouched by a residual that keeps apart from their names. */
  lemma KnownUntouched(names: seq<string>, known: seq<Member>, residual: Fields)
    requires Apart(names, residual.Keys)
    ensures DecodeKnown(names, Append(known, residual)) == DecodeKnown(names, known)
  {
    hide SameName;
    SortedToMap(residual);
    DecodeConcat(names, known, SortedMembers(residual));
    DecodesNothing(names, SortedMembers(residual));
  }

  lemma {:induction false} DecodesConstant(names: seq<string>, members: seq<Member>, v: Json)
    requires forall m :: m in members ==> m.value == v
    ensures forall f :: f in DecodeKnown(names, members) ==> DecodeKnown(names, members)[f] == v
    ensures forall m :: m in members && FieldFor(names, m.key).Some? ==> FieldFor(names, m.key).value in DecodeKnown(names, members)
    decreases |members|
  {
    hide FieldFor;
    if members != [] {
      var n := |members| - 1;
      assert members == members[..n] + [members[n]];
      assert members[n] in members;
      DecodesConstant(names, members[..n], v);
    }
  }

  /** Some residual with these keys, whatever its values, would change a known field. */
  ghost predicate Disturbs(names: seq<string>, known: seq<Member>, keys: set<string>) {
    exists r: Fields :: r.Keys == keys && DecodeKnown(names, Append(known, r)) != DecodeKnown(names, known)
  }

  /** A residual can disturb known fields exactly when one of its keys is a field name up to
      case: decoding takes such a key for the field, and it comes last. */
  lemma DisturbsIff(names: seq<string>, known: seq<Member>, keys: set<string>)
    ensures Disturbs(names, known, keys) <==> !Apart(names, keys)
  {
    hide SameName, Append;
    if Disturbs(names, known, keys) {
      var r: Fields :| r.Keys == keys && DecodeKnown(names, Append(known, r)) != DecodeKnown(names, known);
      if Apart(names, keys) {
        KnownUntouched(names, known, r);
      }
    }
    if !Apart(names, keys) {
      var k, n :| k in keys && n in names && SameName(n, k);
      var before, f := DecodeKnown(names, known), FieldFor(names, k).value;
      var v := if f in before && before[f] == Raw("0") then Raw("1") else Raw("0");
      var r := map x | x in keys :: v;
      Overwrites(names, known, r, k, v);
      assert r.Keys == keys;
    }
  }

  /** The value of a key that is a field name up to case ends up in the field. */
  lemma Overwrites(names: seq<string>, known: seq<Member>, r: Fields, k: string, v: Json)
    requires k in r && FieldFor(names, k).Some? && forall x :: x in r ==> r[x] == v
    ensures var after := DecodeKnown(names, Append(known, r));
            FieldFor(names, k).value in after && after[FieldFor(names, k).value] == v
  {
    hide FieldFor, SortedMembers;
    SortedToMap(r);
    DecodeConcat(names, known, SortedMembers(r));
    DecodesConstant(names, SortedMembers(r), v);
    var m :| m in SortedMembers(r) && m.key == k;
  }

  // ---------- both levels ----------

  const ENVELOPE_FIELDS: seq<string> := [
    "envelope_version", "id", "queue", "handler_ref", "handler_version", "payload", "payload_content_type", "payload_ref",
    "headers", "status", "attempt_count", "redrive_count", "next_attempt_at", "lease_expires_at", "created_at", "attempts"]

  const ATTEMPT_FIELDS: seq<string> := ["attempt_no", "started_at", "finished_at", "outcome", "error"]

  datatype Wire = Wire(fields: Fields, residual: Fields)

  /** `top` holds the fields of the envelope other than its attempts. */
  datatype WireEnvelope = WireEnvelope(top: Wire, attempts: seq<Wire>)

  ghost function EncodeObject(names: seq<string>, w: Wire): Json { Object(Append(Emit(names, w.fields), w.residual)) }

  function DecodeObject(names: seq<string>, j: Json): Option<Wire> {
    if j.Object? then Some(Wire(DecodeKnown(names, j.members), Capture(j.members, names))) else None
  }

  ghost function EncodeAttempts(attempts: seq<Wire>): Json {
    List(seq(|attempts|, i requires 0 <= i < |attempts| => EncodeObject(ATTEMPT_FIELDS, attempts[i])))
  }

  function DecodeAttempts(items: seq<Json>): Option<seq<Wire>> {
    if items == [] then Some([])
    else
      var first, rest := DecodeObject(ATTEMPT_FIELDS, items[0]), DecodeAttempts(items[1..]);
      if first.None? || rest.None? then None else Some([first.value] + rest.value)
  }

  /** The members of the envelope, its attempts among them unless there are none. */
  ghost function TopFields(e: WireEnvelope): Fields {
    if e.attempts == [] then e.top.fields else e.top.fields["attempts" := EncodeAttempts(e.attempts)]
  }

  ghost function EncodeEnvelope(e: WireEnvelope): Json {
    EncodeObject(ENVELOPE_FIELDS, Wire(TopFields(e), e.top.residual))
  }

  /** The envelope of a decoded object; None if its attempts are not a list of objects. */
  function Assemble(w: Wire): Option<WireEnvelope> {
    if "attempts" !in w.fields then Some(WireEnvelope(w, []))
    else if !w.fields["attempts"].List? then None
    else
      match DecodeAttempts(w.fields["attempts"].items)
      case None => None
      case Some(attempts) => Some(WireEnvelope(w.(fields := w.fields - {"attempts"}), attempts))
  }

  function DecodeEnvelope(j: Json): Option<WireEnvelope> {
    match DecodeObject(ENVELOPE_FIELDS, j)
    case None => None
    case Some(w) => Assemble(w)
  }

  /** An object with fields of the struct and a residual that keeps apart from them. */
  predicate Proper(names: seq<string>, w: Wire) {
    (forall k :: k in w.fields ==> k in names) && Apart(names, w.residual.Keys)
  }

  lemma ApartIsUnknown(names: seq<string>, keys: set<string>)
    requires Apart(names, keys)
    ensures forall k :: k in keys ==> k !in names
  {
    forall k | k in keys && k in names ensures false { assert SameName(k, k); }
  }

  lemma ObjectRoundTrip(names: seq<string>, w: Wire)
    requires Proper(names, w)
    ensures DecodeObject(names, EncodeObject(names, w)) == Some(w)
  {
    hide DecodeKnown, Capture, Append, Emit, Apart;
    var known := Emit(names, w.fields);
    EmitReads(names, names, w.fields);
    EmitKeys(names, w.fields);
    forall k | k in ToMap(known) ensures k in names { MapKeys(known, k); }
    ApartIsUnknown(names, w.residual.Keys);
    CaptureAfterAppend(names, known, w.residual);
    KnownUntouched(names, known, w.residual);
    assert w.fields == Restrict(w.fields, names);
  }

  lemma {:induction false} AttemptsRoundTrip(attempts: seq<Wire>)
    requires forall a :: a in attempts ==> Proper(ATTEMPT_FIELDS, a)
    ensures DecodeAttempts(EncodeAttempts(attempts).items) == Some(attempts)
    decreases |attempts|
  {
    hide DecodeObject, EncodeObject, Proper;
    if attempts != [] {
      assert attempts[0] in attempts;
      ObjectRoundTrip(ATTEMPT_FIELDS, attempts[0]);
      assert EncodeAttempts(attempts).items[1..] == EncodeAttempts(attempts[1..]).items;
      AttemptsRoundTrip(attempts[1..]);
      assert attempts == [attempts[0]] + attempts[1..];
    }
  }

  /** What a newer writer put into an envelope or an attempt comes back unchanged, and so does
      everything this version knows. */
  lemma EnvelopeRoundTrip(e: WireEnvelope)
    requires Proper(ENVELOPE_FIELDS, e.top) && "attempts" !in e.top.fields
    requires forall a :: a in e.attempts ==> Proper(ATTEMPT_FIELDS, a)
    ensures DecodeEnvelope(EncodeEnvelope(e)) == Some(e)
  {
    hide DecodeObject, EncodeObject, EncodeAttempts, DecodeAttempts;
    AttemptsRoundTrip(e.attempts);
    var w := Wire(TopFields(e), e.top.residual);
    assert "attempts" in ENVELOPE_FIELDS by { assert ENVELOPE_FIELDS[15] == "attempts"; }
    ObjectRoundTrip(ENVELOPE_FIELDS, w);
    if e.attempts != [] {
      assert w.fields - {"attempts"} == e.top.fields;
      AttemptsAreList(e.attempts);
    }
  }

  lemma AttemptsAreList(attempts: seq<Wire>)
    ensures EncodeAttempts(attempts).List?
  {
  }

  /** For one: a residual field "Queue" can overwrite the queue of any envelope. */
  lemma QueueDisturbs(known: seq<Member>)
    ensures Disturbs(ENVELOPE_FIELDS, known, {"Queue"})
  {
    hide Disturbs;
    var a, b := "queue", "Queue";
    assert Fold(a) == Fold(b);
    assert ENVELOPE_FIELDS[2] == a && SameName(a, b);
    assert !Apart(ENVELOPE_FIELDS, {b});
    DisturbsIff(ENVELOPE_FIELDS, known, {b});
  }
}
