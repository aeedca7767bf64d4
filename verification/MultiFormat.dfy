/** The prefixed string formats of hashes, identities, ciphertexts and plain text. */
module MultiFormat {
  import opened Text
  import opened Wrappers

  /** A deserialized value: its type and the value itself. */
  datatype Object = Object(kind: string, value: string)

  /** A format: its two-character prefix, and for hexadecimal formats the expected length. */
  datatype Format = Format(prefix: string, kind: string, hexadecimal: bool, length: Option<nat>)

  const PLAIN_TEXT := Format("00", "plain-text", false, None)
  const KECCAK256 := Format("01", "keccak256", true, Some(66))
  const ECIES := Format("02", "ecies", false, None)
  const AES256_CBC := Format("03", "aes256-cbc", false, None)
  const AES256_GCM := Format("04", "aes256-gcm", false, None)
  const ETHEREUM_ADDRESS := Format("20", "ethereumAddress", true, Some(42))

  type Group = seq<Format>

  const HASH_FORMAT: Group := [KECCAK256]
  const GROUPS: seq<Group> := [[AES256_CBC, ECIES, AES256_GCM], [ETHEREUM_ADDRESS], HASH_FORMAT, [PLAIN_TEXT]]

  datatype Error = NotSerializable | NotDeserializable | NoFormat

  // ---------- strings ----------

  /** The first two characters, or the whole string when it is shorter. */
  function Head(s: string): string {
    if |s| < 2 then s else s[..2]
  }

  // ---------- one format ----------

  predicate IsSerializableObject(f: Format, o: Object) {
    && o.kind == f.kind && o.value != ""
    && (f.hexadecimal ==> Head(o.value) == "0x")
    && (f.length.Some? ==> |o.value| == f.length.value)
  }

  predicate IsDeserializableString(f: Format, s: string) {
    && Head(s) == f.prefix
    && (f.length.Some? ==> |s| == f.length.value)
  }

  function SerializeWith(f: Format, o: Object): Result<string, Error> {
    if !IsSerializableObject(f, o) then Err(NotSerializable)
    else if f.hexadecimal then Ok(f.prefix + LowerAll(if |o.value| < 2 then "" else o.value[2..]))
    else Ok(f.prefix + o.value)
  }

  function DeserializeWith(f: Format, s: string): Result<Object, Error> {
    if !IsDeserializableString(f, s) then Err(NotDeserializable)
    else
      var body := if f.hexadecimal then LowerAll(s) else s;
      Ok(Object(f.kind, (if f.hexadecimal then "0x" else "") + (if |body| < 2 then "" else body[2..])))
  }

  // ---------- groups ----------

  /** The first format of a group that handles the object. */
  function FindForObject(g: Group, o: Object): Option<Format> {
    if g == [] then None else if IsSerializableObject(g[0], o) then Some(g[0]) else FindForObject(g[1..], o)
  }

  function FindForString(g: Group, s: string): Option<Format> {
    if g == [] then None else if IsDeserializableString(g[0], s) then Some(g[0]) else FindForString(g[1..], s)
  }

  function SerializeInGroup(g: Group, o: Object): Result<string, Error> {
    match FindForObject(g, o)
    case Some(f) => SerializeWith(f, o)
    case None => Err(NoFormat)
  }

  function DeserializeInGroup(g: Group, s: string): Result<Object, Error> {
    match FindForString(g, s)
    case Some(f) => DeserializeWith(f, s)
    case None => Err(NoFormat)
  }

  function SerializeInGroups(gs: seq<Group>, o: Object): Result<string, Error> {
    if gs == [] then Err(NoFormat)
    else if FindForObject(gs[0], o).Some? then SerializeInGroup(gs[0], o)
    else SerializeInGroups(gs[1..], o)
  }

  function DeserializeInGroups(gs: seq<Group>, s: string): Result<Object, Error> {
    if gs == [] then Err(NoFormat)
    else if FindForString(gs[0], s).Some? then DeserializeInGroup(gs[0], s)
    else DeserializeInGroups(gs[1..], s)
  }

  /** The two entry points. */
  function Serialize(o: Object): Result<string, Error> {
    SerializeInGroups(GROUPS, o)
  }

  function Deserialize(s: string): Result<Object, Error> {
    DeserializeInGroups(GROUPS, s)
  }

  // ---------- at most one format accepts ----------

  /** A format of the program. */
  predicate Known(f: Format) {
    f in [PLAIN_TEXT, KECCAK256, ECIES, AES256_CBC, AES256_GCM, ETHEREUM_ADDRESS]
  }

  ghost predicate AllKnown(gs: seq<Group>) {
    forall i, j :: 0 <= i < |gs| && 0 <= j < |gs[i]| ==> Known(gs[i][j])
  }

  ghost predicate Contains(gs: seq<Group>, f: Format) {
    exists i :: 0 <= i < |gs| && f in gs[i]
  }

  lemma KindsAreDistinct(f: Format, g: Format)
    requires Known(f) && Known(g) && f.kind == g.kind
    ensures f == g
  {
    assert |PLAIN_TEXT.kind| == 10 && |KECCAK256.kind| == 9 && |ECIES.kind| == 5 && |ETHEREUM_ADDRESS.kind| == 15;
    assert AES256_CBC.kind[7] == 'c' && AES256_GCM.kind[7] == 'g' && PLAIN_TEXT.kind[7] == 'e';
  }

  lemma PrefixesAreDistinct(f: Format, g: Format)
    requires Known(f) && Known(g) && f.prefix == g.prefix
    ensures f == g
  {
    assert PLAIN_TEXT.prefix[1] == '0' && KECCAK256.prefix[1] == '1' && ECIES.prefix[1] == '2';
    assert AES256_CBC.prefix[1] == '3' && AES256_GCM.prefix[1] == '4';
    assert PLAIN_TEXT.prefix[0] == '0' && ETHEREUM_ADDRESS.prefix[0] == '2' && ETHEREUM_ADDRESS.prefix[1] == '0';
  }

  /** No object and no string is accepted by two formats. */
  lemma AtMostOneFormatAccepts(f: Format, g: Format, o: Object, s: string)
    requires Known(f) && Known(g)
    ensures IsSerializableObject(f, o) && IsSerializableObject(g, o) ==> f == g
    ensures IsDeserializableString(f, s) && IsDeserializableString(g, s) ==> f == g
  {
    if f.kind == g.kind {
      KindsAreDistinct(f, g);
    }
    if f.prefix == g.prefix {
      PrefixesAreDistinct(f, g);
    }
  }

  lemma {:induction false} FindInGroup(g: Group, f: Format, o: Object, s: string)
    requires Known(f) && forall j :: 0 <= j < |g| ==> Known(g[j])
    ensures IsSerializableObject(f, o) ==> FindForObject(g, o) == if f in g then Some(f) else None
    ensures IsDeserializableString(f, s) ==> FindForString(g, s) == if f in g then Some(f) else None
  {
    if g != [] {
      AtMostOneFormatAccepts(f, g[0], o, s);
      FindInGroup(g[1..], f, o, s);
    }
  }

  /**
   The order of the groups, and of the formats in them, never matters: in any
   arrangement of known formats that contains the accepting one, that format does
   the work.
   */
  lemma {:induction false} ArrangementDoesNotMatter(gs: seq<Group>, f: Format, o: Object, s: string)
    requires Known(f) && AllKnown(gs) && Contains(gs, f)
    ensures IsSerializableObject(f, o) ==> SerializeInGroups(gs, o) == SerializeWith(f, o)
    ensures IsDeserializableString(f, s) ==> DeserializeInGroups(gs, s) == DeserializeWith(f, s)
  {
    FindInGroup(gs[0], f, o, s);
    if f !in gs[0] {
      var rest := gs[1..];
      assert forall i :: 0 <= i < |rest| ==> rest[i] == gs[i + 1];
      var i :| 0 <= i < |gs| && f in gs[i];
      assert f in rest[i - 1];
      ArrangementDoesNotMatter(rest, f, o, s);
    }
  }

  lemma {:induction false} AcceptedByAFormat(gs: seq<Group>, o: Object, s: string)
    requires AllKnown(gs)
    ensures SerializeInGroups(gs, o).Ok? ==>
      exists f :: Known(f) && Contains(gs, f) && IsSerializableObject(f, o) && SerializeInGroups(gs, o) == SerializeWith(f, o)
    ensures DeserializeInGroups(gs, s).Ok? ==>
      exists f :: Known(f) && Contains(gs, f) && IsDeserializableString(f, s) && DeserializeInGroups(gs, s) == DeserializeWith(f, s)
  {
    if gs != [] {
      var rest := gs[1..];
      assert forall i :: 0 <= i < |rest| ==> rest[i] == gs[i + 1];
      FoundIsMember(gs[0], o, s);
      AcceptedByAFormat(rest, o, s);
      forall f | Contains(rest, f) ensures Contains(gs, f) {
        var i :| 0 <= i < |rest| && f in rest[i];
        assert f in gs[i + 1];
      }
    }
  }

  lemma {:induction false} FoundIsMember(g: Group, o: Object, s: string)
    ensures var f := FindForObject(g, o); f.Some? ==> f.value in g && IsSerializableObject(f.value, o)
    ensures var f := FindForString(g, s); f.Some? ==> f.value in g && IsDeserializableString(f.value, s)
  {
    if g != [] {
      FoundIsMember(g[1..], o, s);
    }
  }

  lemma GroupsHoldEveryFormat(f: Format)
    ensures AllKnown(GROUPS)
    ensures Known(f) <==> Contains(GROUPS, f)
  {
    assert AES256_CBC in GROUPS[0] && ECIES in GROUPS[0] && AES256_GCM in GROUPS[0];
    assert ETHEREUM_ADDRESS in GROUPS[1] && KECCAK256 in GROUPS[2] && PLAIN_TEXT in GROUPS[3];
  }

  // ---------- printer and parser undo each other ----------

  predicate IsHexKind(kind: string) {
    kind == KECCAK256.kind || kind == ETHEREUM_ADDRESS.kind
  }

  /** What the round trip gives back: hexadecimal values in lower case. */
  function CanonicalObject(o: Object): Object {
    if IsHexKind(o.kind) then o.(value := LowerAll(o.value)) else o
  }

  function CanonicalString(s: string): string {
    if Head(s) == KECCAK256.prefix || Head(s) == ETHEREUM_ADDRESS.prefix then LowerAll(s) else s
  }

  lemma LowerHead(s: string)
    requires |s| >= 2
    ensures LowerAll(s)[2..] == LowerAll(s[2..])
    ensures Head(s) == "0x" || Head(s) == "01" || Head(s) == "20" ==> LowerAll(s) == Head(s) + LowerAll(s[2..])
  {
    assert s == s[..2] + s[2..];
    LowerConcat(s[..2], s[2..]);
  }

  lemma RoundTripOfFormat(f: Format, o: Object)
    requires Known(f) && IsSerializableObject(f, o)
    ensures SerializeWith(f, o).Ok?
    ensures IsDeserializableString(f, SerializeWith(f, o).value)
    ensures DeserializeWith(f, SerializeWith(f, o).value) == Ok(CanonicalObject(o))
    ensures f.hexadecimal == IsHexKind(o.kind)
  {
    KindDecidesHex(f);
    var s := SerializeWith(f, o).value;
    assert s[..2] == f.prefix;
    if f.hexadecimal {
      LowerHead(o.value);
      LowerHead(s);
      LowerAgain(o.value[2..]);
      assert s[2..] == LowerAll(o.value[2..]);
    } else {
      assert s[2..] == o.value && "" + o.value == o.value;
    }
  }

  lemma RoundTripOfString(f: Format, s: string)
    requires Known(f) && IsDeserializableString(f, s)
    ensures |s| >= 2 && DeserializeWith(f, s).Ok?
    ensures var o := DeserializeWith(f, s).value;
      if |s| > 2 then IsSerializableObject(f, o) && SerializeWith(f, o) == Ok(CanonicalString(s)) else o.value == ""
  {
    KindDecidesHex(f);
    assert |f.prefix| == 2 && s == s[..2] + s[2..];
    var o := DeserializeWith(f, s).value;
    if f.hexadecimal {
      LowerHead(s);
      LowerAgain(s[2..]);
      assert o.value[2..] == LowerAll(s[2..]) && Head(o.value) == "0x";
    } else {
      assert o.value == s[2..];
    }
  }

  lemma {:induction false} NoFormatForEmptyValue(gs: seq<Group>, o: Object)
    requires o.value == ""
    ensures SerializeInGroups(gs, o) == Err(NoFormat)
  {
    if gs != [] {
      FoundIsMember(gs[0], o, "");
      NoFormatForEmptyValue(gs[1..], o);
    }
  }

  lemma KindDecidesHex(f: Format)
    requires Known(f)
    ensures f.hexadecimal == IsHexKind(f.kind)
    ensures f.hexadecimal <==> f.prefix == "01" || f.prefix == "20"
  {
    AtMostOneFormatAccepts(f, KECCAK256, Object(f.kind, "x"), "");
    assert |PLAIN_TEXT.kind| == 10 && |KECCAK256.kind| == 9 && |ECIES.kind| == 5 && |ETHEREUM_ADDRESS.kind| == 15;
    assert |AES256_CBC.kind| == 10 && |AES256_GCM.kind| == 10;
    assert PLAIN_TEXT.prefix[1] == '0' && ECIES.prefix[1] == '2' && AES256_CBC.prefix[1] == '3' && AES256_GCM.prefix[1] == '4';
    assert PLAIN_TEXT.prefix[0] == '0' && ECIES.prefix[0] == '0' && AES256_CBC.prefix[0] == '0' && AES256_GCM.prefix[0] == '0';
  }

  /** Every serializable object deserializes back to itself, a hexadecimal value in lower case. */
  lemma SerializeThenDeserialize(o: Object)
    requires Serialize(o).Ok?
    ensures Deserialize(Serialize(o).value) == Ok(CanonicalObject(o))
  {
    GroupsHoldEveryFormat(PLAIN_TEXT);
    AcceptedByAFormat(GROUPS, o, "");
    var f :| Known(f) && Contains(GROUPS, f) && IsSerializableObject(f, o) && Serialize(o) == SerializeWith(f, o);
    RoundTripOfFormat(f, o);
    ArrangementDoesNotMatter(GROUPS, f, o, Serialize(o).value);
  }

  /**
   Every deserializable string serializes back to itself, a hexadecimal one in
   lower case, iff it is longer than its prefix.
   */
  lemma DeserializeThenSerialize(s: string)
    requires Deserialize(s).Ok?
    ensures Serialize(Deserialize(s).value) == if |s| > 2 then Ok(CanonicalString(s)) else Err(NoFormat)
  {
    GroupsHoldEveryFormat(PLAIN_TEXT);
    AcceptedByAFormat(GROUPS, Object("", ""), s);
    var f :| Known(f) && Contains(GROUPS, f) && IsDeserializableString(f, s) && Deserialize(s) == DeserializeWith(f, s);
    ArrangementDoesNotMatter(GROUPS, f, Object("", ""), s);
    RoundTripOfString(f, s);
    var o := Deserialize(s).value;
    if |s| > 2 {
      ArrangementDoesNotMatter(GROUPS, f, o, s);
    } else {
      NoFormatForEmptyValue(GROUPS, o);
    }
  }

  // ---------- the strings themselves ----------

  /** The serialized form of a value of each type. */
  predicate HasForm(kind: string, value: string, s: string) {
    || (kind == "plain-text" && s == "00" + value)
    || (kind == "ecies" && s == "02" + value)
    || (kind == "aes256-cbc" && s == "03" + value)
    || (kind == "aes256-gcm" && s == "04" + value)
    || (kind == "keccak256" && |value| == 66 && value[..2] == "0x" && s == "01" + LowerAll(value[2..]))
    || (kind == "ethereumAddress" && |value| == 42 && value[..2] == "0x" && s == "20" + LowerAll(value[2..]))
  }

  lemma KnownForm(f: Format, o: Object)
    requires Known(f)
    ensures IsSerializableObject(f, o) ==> HasForm(o.kind, o.value, SerializeWith(f, o).value)
  {
    KindDecidesHex(f);
    if IsSerializableObject(f, o) {
      if f == PLAIN_TEXT { assert o.kind == "plain-text"; }
      else if f == KECCAK256 { assert o.kind == "keccak256"; }
      else if f == ECIES { assert o.kind == "ecies"; }
      else if f == AES256_CBC { assert o.kind == "aes256-cbc"; }
      else if f == AES256_GCM { assert o.kind == "aes256-gcm"; }
      else { assert o.kind == "ethereumAddress"; }
    }
  }

  lemma FormIsKnown(o: Object, s: string) returns (f: Format)
    requires o.value != "" && HasForm(o.kind, o.value, s)
    ensures Known(f) && IsSerializableObject(f, o) && SerializeWith(f, o) == Ok(s)
  {
    f := if o.kind == "plain-text" then PLAIN_TEXT
      else if o.kind == "ecies" then ECIES
      else if o.kind == "aes256-cbc" then AES256_CBC
      else if o.kind == "aes256-gcm" then AES256_GCM
      else if o.kind == "keccak256" then KECCAK256
      else ETHEREUM_ADDRESS;
    KindDecidesHex(f);
  }

  /**
   What an object is serialized to: the prefix of its type, then its value, which is
   never empty; hexadecimal digits in lower case without their 0x.
   */
  lemma SerializesIff(o: Object, s: string)
    ensures Serialize(o) == Ok(s) <==> o.value != "" && HasForm(o.kind, o.value, s)
  {
    hide HasForm, SerializeWith, SerializeInGroups;
    GroupsHoldEveryFormat(PLAIN_TEXT);
    if Serialize(o) == Ok(s) {
      AcceptedByAFormat(GROUPS, o, "");
      var f :| Known(f) && Contains(GROUPS, f) && IsSerializableObject(f, o) && Serialize(o) == SerializeWith(f, o);
      KnownForm(f, o);
    }
    if o.value != "" && HasForm(o.kind, o.value, s) {
      var f := FormIsKnown(o, s);
      GroupsHoldEveryFormat(f);
      ArrangementDoesNotMatter(GROUPS, f, o, "");
    }
  }

  /** The object that a string of each type is read as. */
  predicate IsFormOf(s: string, o: Object) {
    || (o.kind == "plain-text" && s == "00" + o.value)
    || (o.kind == "ecies" && s == "02" + o.value)
    || (o.kind == "aes256-cbc" && s == "03" + o.value)
    || (o.kind == "aes256-gcm" && s == "04" + o.value)
    || (o.kind == "keccak256" && |s| == 66 && s[..2] == "01" && o.value == "0x" + LowerAll(s[2..]))
    || (o.kind == "ethereumAddress" && |s| == 42 && s[..2] == "20" && o.value == "0x" + LowerAll(s[2..]))
  }

  lemma KnownString(f: Format, s: string)
    requires Known(f) && IsDeserializableString(f, s)
    ensures DeserializeWith(f, s).Ok? && IsFormOf(s, DeserializeWith(f, s).value)
  {
    KindDecidesHex(f);
    assert |f.prefix| == 2 && s == s[..2] + s[2..];
    if f.hexadecimal {
      LowerHead(s);
    }
    var o := DeserializeWith(f, s).value;
    if f == PLAIN_TEXT { assert o.kind == "plain-text"; }
    else if f == KECCAK256 { assert o.kind == "keccak256"; }
    else if f == ECIES { assert o.kind == "ecies"; }
    else if f == AES256_CBC { assert o.kind == "aes256-cbc"; }
    else if f == AES256_GCM { assert o.kind == "aes256-gcm"; }
    else { assert o.kind == "ethereumAddress"; }
  }

  lemma StringIsKnown(s: string, o: Object) returns (f: Format)
    requires IsFormOf(s, o)
    ensures Known(f) && IsDeserializableString(f, s) && DeserializeWith(f, s) == Ok(o)
  {
    f := if o.kind == "plain-text" then PLAIN_TEXT
      else if o.kind == "ecies" then ECIES
      else if o.kind == "aes256-cbc" then AES256_CBC
      else if o.kind == "aes256-gcm" then AES256_GCM
      else if o.kind == "keccak256" then KECCAK256
      else ETHEREUM_ADDRESS;
    KindDecidesHex(f);
    assert Head(s) == f.prefix;
    if f.hexadecimal {
      LowerHead(s);
    } else {
      assert s[2..] == o.value && "" + o.value == o.value;
    }
  }

  /** What a string is read as: by its two-character prefix, hashes and addresses by their length too. */
  lemma DeserializesIff(s: string, o: Object)
    ensures Deserialize(s) == Ok(o) <==> IsFormOf(s, o)
  {
    hide IsFormOf, DeserializeWith, DeserializeInGroups;
    GroupsHoldEveryFormat(PLAIN_TEXT);
    if Deserialize(s) == Ok(o) {
      AcceptedByAFormat(GROUPS, o, s);
      var f :| Known(f) && Contains(GROUPS, f) && IsDeserializableString(f, s) && Deserialize(s) == DeserializeWith(f, s);
      KnownString(f, s);
    }
    if IsFormOf(s, o) {
      var f := StringIsKnown(s, o);
      GroupsHoldEveryFormat(f);
      ArrangementDoesNotMatter(GROUPS, f, o, s);
    }
  }
}
