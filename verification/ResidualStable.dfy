/** Decoding, encoding and decoding again. What an object says may change on the second reading,
    because a key that is a field name up to case is read as the field and also kept aside, and
    what is kept aside is written last. Which key lists are safe is decided here. */
module ResidualStable {
  import opened Spi
  import opened Ordering
  import opened Residual
  import Decimal

  function KeysIn(ms: seq<Member>): (ks: seq<string>)
    ensures |ks| == |ms| && forall i :: 0 <= i < |ms| ==> ks[i] == ms[i].key
  {
    seq(|ms|, i requires 0 <= i < |ms| => ms[i].key)
  }

  /** The last key that is read as its field. */
  ghost predicate IsLastFor(names: seq<string>, ks: seq<string>, i: int) {
    && 0 <= i < |ks| && FieldFor(names, ks[i]).Some?
    && forall p :: i < p < |ks| ==> FieldFor(names, ks[p]) != FieldFor(names, ks[i])
  }

  /** A key that is a field name only up to case. */
  predicate Variant(names: seq<string>, k: string) { k !in names && FieldFor(names, k).Some? }

  /** If a field is named by variants at all, its last key is one, and the greatest. */
  ghost predicate StableKeys(names: seq<string>, ks: seq<string>) {
    forall i, k :: (IsLastFor(names, ks, i) && k in ks && Variant(names, k) && FieldFor(names, k) == FieldFor(names, ks[i])) ==>
      Variant(names, ks[i]) && !StrLess(ks[i], k)
  }

  // ---------- what a reading says ----------

  lemma {:induction false} LastExists(names: seq<string>, ks: seq<string>, k: string) returns (i: int)
    requires k in ks && FieldFor(names, k).Some?
    ensures IsLastFor(names, ks, i) && FieldFor(names, ks[i]) == FieldFor(names, k)
    decreases |ks|
  {
    hide FieldFor;
    var n := |ks| - 1;
    if FieldFor(names, ks[n]) == FieldFor(names, k) {
      i := n;
    } else {
      assert ks == ks[..n] + [ks[n]];
      i := LastExists(names, ks[..n], k);
      assert forall p :: 0 <= p < n ==> ks[..n][p] == ks[p];
    }
  }

  /** A field holds the value of the last member read as it. */
  lemma {:induction false} FieldIsLast(names: seq<string>, ms: seq<Member>, i: int)
    requires IsLastFor(names, KeysIn(ms), i)
    ensures var f := FieldFor(names, ms[i].key).value;
            f in DecodeKnown(names, ms) && DecodeKnown(names, ms)[f] == ms[i].value
    decreases |ms|
  {
    hide FieldFor;
    var n := |ms| - 1;
    if i < n {
      var init := ms[..n];
      assert forall p :: 0 <= p < n ==> KeysIn(init)[p] == KeysIn(ms)[p];
      assert FieldFor(names, KeysIn(ms)[n]) != FieldFor(names, KeysIn(ms)[i]);
      FieldIsLast(names, init, i);
    }
  }

  lemma {:induction false} FieldHasKey(names: seq<string>, ms: seq<Member>, f: string)
    requires f in DecodeKnown(names, ms)
    ensures f in names && exists k :: k in KeysIn(ms) && FieldFor(names, k) == Some(f)
    decreases |ms|
  {
    var n := |ms| - 1;
    var last := ms[n];
    if FieldFor(names, last.key) == Some(f) {
      assert KeysIn(ms)[n] == last.key;
    } else {
      FieldHasKey(names, ms[..n], f);
      var k :| k in KeysIn(ms[..n]) && FieldFor(names, k) == Some(f);
      KeyStays(ms, n, k);
    }
  }

  lemma KeyStays(ms: seq<Member>, n: nat, k: string)
    requires n <= |ms| && k in KeysIn(ms[..n])
    ensures k in KeysIn(ms)
  {
    var p :| 0 <= p < n && KeysIn(ms[..n])[p] == k;
    assert KeysIn(ms)[p] == k;
  }

  /** A key keeps its last value. */
  lemma {:induction false} MapIsLast(ms: seq<Member>, i: nat)
    requires i < |ms| && forall p :: i < p < |ms| ==> ms[p].key != ms[i].key
    ensures ms[i].key in ToMap(ms) && ToMap(ms)[ms[i].key] == ms[i].value
    decreases |ms|
  {
    var n := |ms| - 1;
    if i < n {
      assert ms[n].key != ms[i].key;
      MapIsLast(ms[..n], i);
    }
  }

  lemma {:induction false} MapHasKeys(ms: seq<Member>, k: string)
    ensures k in ToMap(ms) <==> k in KeysIn(ms)
    decreases |ms|
  {
    if ms != [] {
      var n := |ms| - 1;
      MapHasKeys(ms[..n], k);
      assert KeysIn(ms) == KeysIn(ms[..n]) + [ms[n].key];
    }
  }

  // ---------- what is kept aside ----------

  /** The fields that the residual, written after the known members, is read as. */
  ghost function Second(names: seq<string>, ms: seq<Member>): Fields {
    DecodeKnown(names, SortedMembers(Capture(ms, names)))
  }

  lemma ResidualKeys(names: seq<string>, ms: seq<Member>, k: string)
    ensures k in Capture(ms, names) <==> k in KeysIn(ms) && k !in names
    ensures k in KeysIn(SortedMembers(Capture(ms, names))) <==> k in Capture(ms, names)
  {
    hide SortedMembers, ToMap;
    MapHasKeys(ms, k);
    var sorted := SortedMembers(Capture(ms, names));
    SortedToMap(Capture(ms, names));
    MapHasKeys(sorted, k);
  }

  /** In the sorted residual the last key read as a field is the greatest of them. */
  lemma SortedLastIsGreatest(names: seq<string>, r: Fields, p: int, k: string)
    requires IsLastFor(names, KeysIn(SortedMembers(r)), p) && k in r
    requires FieldFor(names, k) == FieldFor(names, KeysIn(SortedMembers(r))[p])
    ensures var g := KeysIn(SortedMembers(r))[p]; k == g || StrLess(k, g)
  {
    hide FieldFor, Listing;
    ListedNames(r);
    var keys := Listing(NameKeys(r));
    assert Key(0, k) in keys;
    var q :| 0 <= q < |keys| && keys[q] == Key(0, k);
    var ks := KeysIn(SortedMembers(r));
    assert ks[q] == k && ks[p] == keys[p].id;
    assert q <= p;
    if q < p {
      assert Less(keys[q], keys[p]);
      ZeroKeys(r, p);
    }
  }

  lemma ZeroKeys(r: Fields, p: nat)
    requires p < |Listing(NameKeys(r))|
    ensures Listing(NameKeys(r))[p].at == 0
  {
    hide Listing;
    assert Listing(NameKeys(r))[p] in Elements(Listing(NameKeys(r)));
  }

  /** A field of the second reading, by the greatest variant of its name: the value is that of
      the last member under that key. */
  lemma SecondIsGreatest(names: seq<string>, ms: seq<Member>, k: string) returns (i: nat)
    requires k in KeysIn(ms) && Variant(names, k)
    ensures i < |ms| && Variant(names, ms[i].key) && FieldFor(names, ms[i].key) == FieldFor(names, k)
    ensures forall p :: i < p < |ms| ==> ms[p].key != ms[i].key
    ensures forall v :: v in KeysIn(ms) && Variant(names, v) && FieldFor(names, v) == FieldFor(names, k) ==>
              v == ms[i].key || StrLess(v, ms[i].key)
    ensures var f := FieldFor(names, k).value;
            f in Second(names, ms) && Second(names, ms)[f] == ms[i].value
  {
    hide FieldFor, SortedMembers, Capture, DecodeKnown, StrLess, IsLastFor;
    var r := Capture(ms, names);
    var sorted := SortedMembers(r);
    ResidualKeys(names, ms, k);
    var p := LastExists(names, KeysIn(sorted), k);
    LastInRange(names, KeysIn(sorted), p);
    FieldIsLast(names, sorted, p);
    var g := sorted[p].key;
    assert KeysIn(sorted)[p] == g && g in KeysIn(sorted);
    ResidualKeys(names, ms, g);
    i := LastIndex(ms, g);
    MapIsLast(ms, i);
    SortedToMap(r);
    assert sorted[p] in sorted;
    CapturedValue(ms, names, g);
    forall v | v in KeysIn(ms) && Variant(names, v) && FieldFor(names, v) == FieldFor(names, k)
      ensures v == g || StrLess(v, g)
    {
      ResidualKeys(names, ms, v);
      SortedLastIsGreatest(names, r, p, v);
    }
  }

  lemma LastInRange(names: seq<string>, ks: seq<string>, i: int)
    requires IsLastFor(names, ks, i)
    ensures 0 <= i < |ks| && FieldFor(names, ks[i]).Some?
  {
  }

  lemma CapturedValue(ms: seq<Member>, names: seq<string>, k: string)
    requires k in Capture(ms, names)
    ensures k in ToMap(ms) && Capture(ms, names)[k] == ToMap(ms)[k] && k !in names
  {
  }

  lemma {:induction false} LastIndex(ms: seq<Member>, k: string) returns (i: nat)
    requires k in KeysIn(ms)
    ensures i < |ms| && ms[i].key == k && forall p :: i < p < |ms| ==> ms[p].key != k
    decreases |ms|
  {
    var n := |ms| - 1;
    if ms[n].key == k {
      i := n;
    } else {
      assert KeysIn(ms) == KeysIn(ms[..n]) + [ms[n].key];
      i := LastIndex(ms[..n], k);
      assert forall p :: 0 <= p < n ==> ms[..n][p] == ms[p];
    }
  }

  // ---------- one object ----------

  function Reading(names: seq<string>, ms: seq<Member>): Wire { Wire(DecodeKnown(names, ms), Capture(ms, names)) }

  /** Reading, writing and reading again gives the same. */
  ghost predicate Stable(names: seq<string>, ms: seq<Member>) {
    DecodeObject(names, EncodeObject(names, Reading(names, ms))) == Some(Reading(names, ms))
  }

  /** The second reading: the fields of the first overwritten by what was kept aside, which is
      itself unchanged. */
  lemma SecondReading(names: seq<string>, fields: Fields, residual: Fields)
    requires forall f :: f in fields ==> f in names
    requires forall k :: k in residual ==> k !in names
    ensures DecodeObject(names, EncodeObject(names, Wire(fields, residual)))
            == Some(Wire(fields + DecodeKnown(names, SortedMembers(residual)), residual))
  {
    hide DecodeKnown, Capture, Emit, SortedMembers, ToMap;
    var known := Emit(names, fields);
    EmitReads(names, names, fields);
    EmitKeys(names, fields);
    forall k | k in ToMap(known) ensures k in names { MapKeys(known, k); }
    CaptureAfterAppend(names, known, residual);
    DecodeConcat(names, known, SortedMembers(residual));
    assert fields == Restrict(fields, names);
  }

  lemma ReadingParts(names: seq<string>, ms: seq<Member>)
    ensures forall f :: f in Reading(names, ms).fields ==> f in names
    ensures forall k :: k in Reading(names, ms).residual ==> k !in names
  {
    hide DecodeKnown, ToMap;
    forall f | f in DecodeKnown(names, ms) ensures f in names { FieldHasKey(names, ms, f); }
  }

  lemma StableIff(names: seq<string>, ms: seq<Member>)
    ensures Stable(names, ms) <==> DecodeKnown(names, ms) + Second(names, ms) == DecodeKnown(names, ms)
  {
    hide DecodeKnown, Capture, EncodeObject, DecodeObject;
    ReadingParts(names, ms);
    SecondReading(names, Reading(names, ms).fields, Reading(names, ms).residual);
  }

  /** Every field of the second reading comes from a variant. */
  lemma SecondHasVariant(names: seq<string>, ms: seq<Member>, f: string) returns (k: string)
    requires f in Second(names, ms)
    ensures k in KeysIn(ms) && Variant(names, k) && FieldFor(names, k) == Some(f)
  {
    hide FieldFor, SortedMembers, Capture, DecodeKnown;
    var sorted := SortedMembers(Capture(ms, names));
    FieldHasKey(names, sorted, f);
    k :| k in KeysIn(sorted) && FieldFor(names, k) == Some(f);
    ResidualKeys(names, ms, k);
  }

  /** With a stable key list the second reading agrees with the first, field by field. */
  lemma SecondAgrees(names: seq<string>, ms: seq<Member>, f: string)
    requires StableKeys(names, KeysIn(ms)) && f in Second(names, ms)
    ensures f in DecodeKnown(names, ms) && DecodeKnown(names, ms)[f] == Second(names, ms)[f]
  {
    hide FieldFor, Second, DecodeKnown, StrLess, IsLastFor, StableKeys, Variant;
    var k := SecondHasVariant(names, ms, f);
    VariantNames(names, k);
    var ks := KeysIn(ms);
    var i := LastExists(names, ks, k);
    LastInRange(names, ks, i);
    FieldIsLast(names, ms, i);
    var j := SecondIsGreatest(names, ms, k);
    assert ks[j] in ks && ks[i] in ks;
    StableApplies(names, ks, i, ks[j]);
    StrTrichotomy(ks[i], ks[j]);
    LastIsAfter(names, ks, i, j);
    assert i <= j;
  }

  lemma VariantNames(names: seq<string>, k: string)
    requires Variant(names, k)
    ensures FieldFor(names, k).Some?
  {
  }

  lemma StableApplies(names: seq<string>, ks: seq<string>, i: int, k: string)
    requires StableKeys(names, ks) && IsLastFor(names, ks, i) && k in ks && Variant(names, k)
    requires FieldFor(names, k) == FieldFor(names, ks[i])
    ensures Variant(names, ks[i]) && !StrLess(ks[i], k)
  {
    hide FieldFor, StrLess, IsLastFor, Variant;
  }

  lemma LastIsAfter(names: seq<string>, ks: seq<string>, i: int, j: int)
    requires IsLastFor(names, ks, i) && 0 <= j < |ks| && FieldFor(names, ks[j]) == FieldFor(names, ks[i])
    ensures j <= i
  {
    hide FieldFor;
  }

  lemma StableIfKeys(names: seq<string>, ms: seq<Member>)
    requires StableKeys(names, KeysIn(ms))
    ensures Stable(names, ms)
  {
    hide Stable, Second, DecodeKnown, StableKeys;
    forall f | f in Second(names, ms)
      ensures f in DecodeKnown(names, ms) && DecodeKnown(names, ms)[f] == Second(names, ms)[f]
    {
      SecondAgrees(names, ms, f);
    }
    StableIff(names, ms);
  }

  /** Without one, some field of the second reading differs whenever values at different places do. */
  lemma SecondDiffers(names: seq<string>, ms: seq<Member>) returns (i: nat, j: nat)
    requires !StableKeys(names, KeysIn(ms))
    ensures i < |ms| && j < |ms| && i != j
    ensures FieldFor(names, ms[i].key).Some? && FieldFor(names, ms[j].key) == FieldFor(names, ms[i].key)
    ensures var f := FieldFor(names, ms[i].key).value;
            && f in DecodeKnown(names, ms) && DecodeKnown(names, ms)[f] == ms[i].value
            && f in Second(names, ms) && Second(names, ms)[f] == ms[j].value
  {
    hide FieldFor, Second, DecodeKnown, StrLess;
    var ks := KeysIn(ms);
    var a, k :| IsLastFor(names, ks, a) && k in ks && Variant(names, k) && FieldFor(names, k) == FieldFor(names, ks[a])
                && !(Variant(names, ks[a]) && !StrLess(ks[a], k));
    i := a;
    FieldIsLast(names, ms, i);
    j := SecondIsGreatest(names, ms, k);
    if i == j {
      assert k == ks[i] || StrLess(k, ks[i]);
      StrTrichotomy(ks[i], k);
    }
  }

  /** A member list with these keys and values that tell their places apart. */
  function Marked(names: seq<string>, ks: seq<string>): (ms: seq<Member>)
    ensures |ms| == |ks| && forall p :: 0 <= p < |ks| ==> ms[p] == Member(ks[p], Mark(names, ks[p], p))
  {
    seq(|ks|, p requires 0 <= p < |ks| => Member(ks[p], Mark(names, ks[p], p)))
  }

  /** A list of so many empty objects where attempts are expected, a number elsewhere. */
  function Mark(names: seq<string>, k: string, p: nat): Json {
    if FieldFor(names, k) == Some("attempts") then List(Empties(p)) else Raw(Decimal.Format(p))
  }

  function Empties(n: nat): (items: seq<Json>)
    ensures |items| == n && forall i :: 0 <= i < n ==> items[i] == Object([])
  {
    seq(n, i requires 0 <= i < n => Object([]))
  }

  lemma MarksDiffer(names: seq<string>, j: string, k: string, p: nat, q: nat)
    requires p != q && FieldFor(names, j) == FieldFor(names, k)
    ensures Mark(names, j, p) != Mark(names, k, q)
  {
    hide FieldFor;
    if Decimal.Format(p) == Decimal.Format(q) {
      Decimal.FormatInjective(p, q);
    }
    assert |Empties(p)| != |Empties(q)|;
  }

  /** Every object with these keys reads the same the second time, exactly when each field named
      by variants has its greatest variant as its last key. */
  lemma StableKeysIff(names: seq<string>, ks: seq<string>)
    ensures StableKeys(names, ks) <==> forall ms :: KeysIn(ms) == ks ==> Stable(names, ms)
  {
    hide StableKeys, Stable, FieldFor, Mark, DecodeKnown, Second;
    if StableKeys(names, ks) {
      forall ms | KeysIn(ms) == ks ensures Stable(names, ms) { StableIfKeys(names, ms); }
    } else {
      var ms := Marked(names, ks);
      assert KeysIn(ms) == ks;
      var i, j := SecondDiffers(names, ms);
      MarksDiffer(names, ks[i], ks[j], i, j);
      StableIff(names, ms);
    }
  }

  /** The shortest unsafe objects: a variant before its field. The second reading gives the
      field the variant's value. */
  lemma ReadTwice(names: seq<string>, f: string, v: string, a: Json, b: Json)
    requires f in names && Variant(names, v) && FieldFor(names, v) == Some(f)
    ensures var first := Reading(names, [Member(v, b), Member(f, a)]);
            var again := DecodeObject(names, EncodeObject(names, first));
            && f in first.fields && first.fields[f] == a
            && again.Some? && f in again.value.fields && again.value.fields[f] == b
  {
    hide FieldFor, EncodeObject, DecodeObject, Capture, SortedMembers, DecodeKnown, StrLess, IsLastFor;
    var ms := [Member(v, b), Member(f, a)];
    var ks := KeysIn(ms);
    assert ks[0] == v && ks[1] == f;
    LastOfTwo(names, ks);
    FieldIsLast(names, ms, 1);
    var i := SecondIsGreatest(names, ms, v);
    assert i == 0;
    ReadingParts(names, ms);
    SecondReading(names, Reading(names, ms).fields, Reading(names, ms).residual);
  }

  lemma LastOfTwo(names: seq<string>, ks: seq<string>)
    requires |ks| == 2 && FieldFor(names, ks[1]).Some?
    ensures IsLastFor(names, ks, 1)
  {
    hide FieldFor;
  }

  /** The object {"Queue": b, "queue": a}: the queue is a, and b when read again. */
  lemma QueueReadTwice(a: Json, b: Json)
    ensures var first := Reading(ENVELOPE_FIELDS, [Member("Queue", b), Member("queue", a)]);
            var again := DecodeObject(ENVELOPE_FIELDS, EncodeObject(ENVELOPE_FIELDS, first));
            && "queue" in first.fields && first.fields["queue"] == a
            && again.Some? && "queue" in again.value.fields && again.value.fields["queue"] == b
  {
    hide FieldFor, EncodeObject, DecodeObject, Reading;
    QueueNames();
    ReadTwice(ENVELOPE_FIELDS, "queue", "Queue", a, b);
  }

  lemma QueueNames()
    ensures "queue" in ENVELOPE_FIELDS && "Queue" !in ENVELOPE_FIELDS
    ensures FieldFor(ENVELOPE_FIELDS, "queue") == FieldFor(ENVELOPE_FIELDS, "Queue") == Some("queue")
  {
    hide FieldFor;
    var a, b := "queue", "Queue";
    assert ENVELOPE_FIELDS[2] == a;
    assert b !in ENVELOPE_FIELDS;
    assert Fold(a) == Fold(b) && SameName(a, b);
    OnlyQueue(b);
  }

  lemma OnlyQueue(k: string)
    requires SameName("queue", k) && k !in ENVELOPE_FIELDS
    ensures FieldFor(ENVELOPE_FIELDS, k) == Some("queue")
  {
    hide FieldFor;
    assert ENVELOPE_FIELDS[2] == "queue";
    var f := FieldFor(ENVELOPE_FIELDS, k);
    assert f.Some? && SameName(f.value, k);
    FoldLength(f.value, k);
    FoldLength("queue", k);
    FiveLetters(f.value);
  }

  lemma FoldLength(a: string, b: string)
    requires SameName(a, b)
    ensures |a| == |b|
  {
    assert |Fold(a)| == |Fold(b)|;
  }

  lemma FiveLetters(n: string)
    requires n in ENVELOPE_FIELDS && |n| == 5
    ensures n == "queue"
  {
  }

  // ---------- whole envelopes ----------

  /** The attempt objects of an incoming envelope have stable keys. */
  ghost predicate AttemptsStable(ms: seq<Member>) {
    forall m :: m in ms && FieldFor(ENVELOPE_FIELDS, m.key) == Some("attempts") && m.value.List? ==> ItemsStable(m.value.items)
  }

  ghost predicate ItemsStable(items: seq<Json>) {
    forall i :: 0 <= i < |items| && items[i].Object? ==> StableKeys(ATTEMPT_FIELDS, KeysIn(items[i].members))
  }

  /** If it is an envelope, writing it and reading it again gives the same envelope. */
  ghost predicate Survives(ms: seq<Member>) {
    var e := DecodeEnvelope(Object(ms));
    e.Some? ==> DecodeEnvelope(EncodeEnvelope(e.value)) == e
  }

  lemma {:induction false} AttemptsReread(items: seq<Json>)
    requires ItemsStable(items) && DecodeAttempts(items).Some?
    ensures EncodeAttempts(DecodeAttempts(items).value).List?
    ensures DecodeAttempts(EncodeAttempts(DecodeAttempts(items).value).items) == DecodeAttempts(items)
    decreases |items|
  {
    hide EncodeObject, StableKeys, DecodeKnown, Capture;
    if items != [] {
      AttemptsReread(items[1..]);
      StableIfKeys(ATTEMPT_FIELDS, items[0].members);
      var all := DecodeAttempts(items).value;
      assert all[1..] == DecodeAttempts(items[1..]).value;
      assert EncodeAttempts(all).items[1..] == EncodeAttempts(all[1..]).items;
      assert all == [all[0]] + all[1..];
    }
  }

  /** The object of an envelope that was read, read again. */
  lemma EnvelopeSecond(ms: seq<Member>, e: WireEnvelope)
    requires DecodeEnvelope(Object(ms)) == Some(e)
    ensures DecodeEnvelope(EncodeEnvelope(e))
            == Assemble(Wire(TopFields(e) + Second(ENVELOPE_FIELDS, ms), Capture(ms, ENVELOPE_FIELDS)))
  {
    hide DecodeKnown, Capture, SortedMembers, EncodeObject, EncodeAttempts, DecodeAttempts;
    ReadingParts(ENVELOPE_FIELDS, ms);
    assert "attempts" in ENVELOPE_FIELDS by { assert ENVELOPE_FIELDS[15] == "attempts"; }
    SecondReading(ENVELOPE_FIELDS, TopFields(e), e.top.residual);
  }

  lemma SurvivesIfKeys(ms: seq<Member>)
    requires StableKeys(ENVELOPE_FIELDS, KeysIn(ms)) && AttemptsStable(ms)
    ensures Survives(ms)
  {
    hide DecodeKnown, Capture, StableKeys, EncodeAttempts, DecodeAttempts, EncodeEnvelope, Second, AttemptsStable, ItemsStable;
    if DecodeEnvelope(Object(ms)).Some? {
      var e := DecodeEnvelope(Object(ms)).value;
      var f, v := DecodeKnown(ENVELOPE_FIELDS, ms), Second(ENVELOPE_FIELDS, ms);
      EnvelopeSecond(ms, e);
      forall k | k in v ensures k in f && v[k] == f[k] { SecondAgrees(ENVELOPE_FIELDS, ms, k); }
      if "attempts" in f {
        AttemptItems(ms);
        AttemptsReread(f["attempts"].items);
      } else {
        NoAttemptsReread();
      }
      SameAssembly(f, Capture(ms, ENVELOPE_FIELDS), e, v);
    }
  }

  lemma SameAssembly(f: Fields, residual: Fields, e: WireEnvelope, v: Fields)
    requires Assemble(Wire(f, residual)) == Some(e) && forall k :: k in v ==> k in f && v[k] == f[k]
    requires EncodeAttempts(e.attempts).List? && DecodeAttempts(EncodeAttempts(e.attempts).items) == Some(e.attempts)
    ensures Assemble(Wire(TopFields(e) + v, residual)) == Some(e)
  {
    hide EncodeAttempts, DecodeAttempts;
    var again := TopFields(e) + v;
    if "attempts" !in f {
      assert again == f;
    } else {
      assert again - {"attempts"} == f - {"attempts"};
      if "attempts" !in v && e.attempts == [] {
        assert again == f - {"attempts"};
      }
    }
  }

  lemma NoAttemptsReread()
    ensures EncodeAttempts([]).List? && DecodeAttempts(EncodeAttempts([]).items) == Some([])
  {
  }

  /** Putting together an envelope leaves the other fields alone. */
  lemma AssembleKeeps(w: Wire, f: string)
    requires f in w.fields && f != "attempts" && Assemble(w).Some?
    ensures f in Assemble(w).value.top.fields && Assemble(w).value.top.fields[f] == w.fields[f]
  {
    hide DecodeAttempts;
  }

  lemma AttemptItems(ms: seq<Member>)
    requires AttemptsStable(ms) && "attempts" in DecodeKnown(ENVELOPE_FIELDS, ms) && DecodeKnown(ENVELOPE_FIELDS, ms)["attempts"].List?
    ensures ItemsStable(DecodeKnown(ENVELOPE_FIELDS, ms)["attempts"].items)
  {
    hide DecodeKnown, FieldFor, ItemsStable, IsLastFor;
    var i := FieldMember(ENVELOPE_FIELDS, ms, "attempts");
    assert ms[i] in ms;
  }

  /** The member a field was read from. */
  lemma FieldMember(names: seq<string>, ms: seq<Member>, f: string) returns (i: nat)
    requires f in DecodeKnown(names, ms)
    ensures i < |ms| && FieldFor(names, ms[i].key) == Some(f) && DecodeKnown(names, ms)[f] == ms[i].value
  {
    hide DecodeKnown, FieldFor, IsLastFor;
    FieldHasKey(names, ms, f);
    var k :| k in KeysIn(ms) && FieldFor(names, k) == Some(f);
    var p := LastExists(names, KeysIn(ms), k);
    LastInRange(names, KeysIn(ms), p);
    FieldIsLast(names, ms, p);
    i := p;
  }

  lemma {:induction false} EmptiesDecode(n: nat)
    ensures ItemsStable(Empties(n))
    ensures DecodeAttempts(Empties(n)).Some? && |DecodeAttempts(Empties(n)).value| == n
    decreases n
  {
    hide DecodeKnown, Capture, StableKeys, Empties;
    NoKeysStable(ATTEMPT_FIELDS);
    if n > 0 {
      EmptiesDecode(n - 1);
      assert Empties(n)[1..] == Empties(n - 1);
    }
  }

  lemma NoKeysStable(names: seq<string>)
    ensures StableKeys(names, KeysIn([]))
  {
  }

  /** The marked object is an envelope with stable attempts. */
  lemma MarkedDecodes(ks: seq<string>)
    ensures AttemptsStable(Marked(ENVELOPE_FIELDS, ks))
    ensures DecodeEnvelope(Object(Marked(ENVELOPE_FIELDS, ks))).Some?
  {
    hide DecodeKnown, FieldFor, Capture, ItemsStable, DecodeAttempts, Empties;
    var ms := Marked(ENVELOPE_FIELDS, ks);
    forall p | 0 <= p < |ms| && FieldFor(ENVELOPE_FIELDS, ms[p].key) == Some("attempts")
      ensures ms[p].value.List? && ItemsStable(ms[p].value.items) && DecodeAttempts(ms[p].value.items).Some?
    {
      EmptiesDecode(p);
    }
    if "attempts" in DecodeKnown(ENVELOPE_FIELDS, ms) {
      var i := FieldMember(ENVELOPE_FIELDS, ms, "attempts");
    }
  }

  lemma MarkedDiffers(ks: seq<string>)
    requires !StableKeys(ENVELOPE_FIELDS, ks)
    ensures !Survives(Marked(ENVELOPE_FIELDS, ks))
  {
    hide DecodeKnown, FieldFor, Capture, DecodeAttempts, EncodeAttempts, EncodeEnvelope, Second, StableKeys, Mark, Empties;
    var names := ENVELOPE_FIELDS;
    var ms := Marked(names, ks);
    assert KeysIn(ms) == ks;
    MarkedDecodes(ks);
    var e := DecodeEnvelope(Object(ms)).value;
    var i, j := SecondDiffers(names, ms);
    var f := FieldFor(names, ks[i]).value;
    EnvelopeSecond(ms, e);
    var again := TopFields(e) + Second(names, ms);
    assert f in again && again[f] == ms[j].value;
    if f == "attempts" {
      AttemptMarks(ks[i], i);
      AttemptMarks(ks[j], j);
    } else {
      MarksDiffer(names, ks[i], ks[j], i, j);
      AssembleKeeps(Reading(names, ms), f);
      if Assemble(Wire(again, Capture(ms, names))).Some? {
        AssembleKeeps(Wire(again, Capture(ms, names)), f);
      }
    }
  }

  lemma AttemptMarks(k: string, p: nat)
    requires FieldFor(ENVELOPE_FIELDS, k) == Some("attempts")
    ensures var m := Mark(ENVELOPE_FIELDS, k, p);
            m.List? && DecodeAttempts(m.items).Some? && |DecodeAttempts(m.items).value| == p
  {
    hide FieldFor, DecodeAttempts, Empties, ItemsStable;
    EmptiesDecode(p);
  }

  /** Every envelope with these keys, and stable keys in its attempts, survives being written and
      read again, exactly when each field named by variants has its greatest variant as its last
      key. */
  lemma EnvelopeKeysIff(ks: seq<string>)
    ensures StableKeys(ENVELOPE_FIELDS, ks) <==> forall ms :: KeysIn(ms) == ks && AttemptsStable(ms) ==> Survives(ms)
  {
    hide StableKeys, Survives, AttemptsStable, Mark;
    if StableKeys(ENVELOPE_FIELDS, ks) {
      forall ms | KeysIn(ms) == ks && AttemptsStable(ms) ensures Survives(ms) { SurvivesIfKeys(ms); }
    } else {
      var ms := Marked(ENVELOPE_FIELDS, ks);
      assert KeysIn(ms) == ks;
      MarkedDecodes(ks);
      MarkedDiffers(ks);
    }
  }
}
