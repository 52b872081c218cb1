/**
 * Replacing the prekeys of a publication by uploads
 * (client/hosted-prekey-publication.ts).
 */
module PreKeyPublication {
  import opened Options
  import opened Sequences
  import Decimal

  type Bytes = seq<bv8>

  datatype UploadType = EcPreKey | KemOneTimePreKey | EcSignedPreKey | KemLastResortPreKey

  datatype Algorithm = EcX25519 | KemMlKem1024

  datatype Upload = Upload(kind: UploadType, keyId: int, publicKey: string, signature: Option<string>)

  datatype PreKey = PreKey(algorithm: Algorithm, keyId: int, publicKey: Bytes, signature: Option<Bytes>)

  datatype PreKeys = PreKeys(oneTime: seq<PreKey>, signed: seq<PreKey>)

  datatype Error = InvalidUpload | NotBase64 | RepeatsIdentifier(signed: bool)

  /** The canonical base64 decoder, None when the text is none. */
  type Decoder = string -> Option<Bytes>

  function AlgorithmOf(kind: UploadType): Algorithm {
    if kind == EcPreKey || kind == EcSignedPreKey then EcX25519 else KemMlKem1024
  }

  function RegistrationPreKeyUpload(decode: Decoder, upload: Upload): Result<PreKey, Error> {
    if upload.keyId < 0 || upload.keyId > Decimal.MAX_SAFE_INTEGER then Err(InvalidUpload)
    else
      var signature := if upload.signature.Some? then decode(upload.signature.value) else None;
      if upload.signature.Some? && signature.None? then Err(NotBase64)
      else if (upload.kind == EcPreKey) == signature.Some? then Err(InvalidUpload)
      else if decode(upload.publicKey).None? then Err(NotBase64)
      else Ok(PreKey(AlgorithmOf(upload.kind), upload.keyId, decode(upload.publicKey).value, signature))
  }

  predicate IsValid(decode: Decoder, upload: Upload) {
    RegistrationPreKeyUpload(decode, upload).Ok?
  }

  predicate AllValid(decode: Decoder, uploads: seq<Upload>) {
    forall upload :: upload in uploads ==> IsValid(decode, upload)
  }

  predicate KindValid(decode: Decoder, uploads: seq<Upload>, kind: UploadType) {
    forall upload :: upload in uploads && upload.kind == kind ==> IsValid(decode, upload)
  }

  /** The uploads of one type, in upload order. */
  function Replacements(decode: Decoder, uploads: seq<Upload>, kind: UploadType): seq<PreKey>
    requires AllValid(decode, uploads)
  {
    if uploads == [] then []
    else
      var front, last := uploads[..|uploads| - 1], uploads[|uploads| - 1];
      assert last in uploads && IsValid(decode, last);
      Replacements(decode, front, kind)
      + if last.kind == kind then [RegistrationPreKeyUpload(decode, last).value] else []
  }

  predicate HasUpload(uploads: seq<Upload>, kind: UploadType) {
    exists i :: 0 <= i < |uploads| && uploads[i].kind == kind
  }

  // --- What the replacement is ----------------------------------------------------------

  /** The prekey is of an algorithm that has no upload of the kinds of its list. */
  predicate IsKept(uploads: seq<Upload>, ec: UploadType, kem: UploadType, prekey: PreKey) {
    !HasUpload(uploads, if prekey.algorithm == EcX25519 then ec else kem)
  }

  /** The prekeys of the algorithms without uploads, in their order, and then the uploads by type. */
  function ReplacedList(decode: Decoder, current: seq<PreKey>, uploads: seq<Upload>, ec: UploadType, kem: UploadType):
      seq<PreKey>
    requires AllValid(decode, uploads)
  {
    Filter(current, prekey => IsKept(uploads, ec, kem, prekey))
    + Replacements(decode, uploads, ec) + Replacements(decode, uploads, kem)
  }

  function Replaced(decode: Decoder, current: PreKeys, uploads: seq<Upload>): PreKeys
    requires AllValid(decode, uploads)
  {
    PreKeys(ReplacedList(decode, current.oneTime, uploads, EcPreKey, KemOneTimePreKey),
            ReplacedList(decode, current.signed, uploads, EcSignedPreKey, KemLastResortPreKey))
  }

  ghost predicate UniqueIdentifiers(prekeys: seq<PreKey>) {
    forall i, j :: 0 <= i < j < |prekeys| ==>
      prekeys[i].algorithm != prekeys[j].algorithm || prekeys[i].keyId != prekeys[j].keyId
  }

  function AlgorithmName(algorithm: Algorithm): string {
    match algorithm
    case EcX25519 => "ec-x25519"
    case KemMlKem1024 => "kem-ml-kem-1024"
  }

  function Identifier(prekey: PreKey): string {
    AlgorithmName(prekey.algorithm) + ":" + Decimal.PrintInt(prekey.keyId)
  }

  /** Two prekeys have one identifier exactly when they have one algorithm and key ID. */
  lemma IdentifierNames(one: PreKey, other: PreKey)
    ensures Identifier(one) == Identifier(other) <==>
            one.algorithm == other.algorithm && one.keyId == other.keyId
  {
    if Identifier(one) == Identifier(other) {
      assert Identifier(one)[0] == AlgorithmName(one.algorithm)[0];
      assert Identifier(other)[0] == AlgorithmName(other.algorithm)[0];
      var n := |AlgorithmName(one.algorithm)| + 1;
      assert Identifier(one)[n..] == Decimal.PrintInt(one.keyId);
      assert Identifier(other)[n..] == Decimal.PrintInt(other.keyId);
      Decimal.PrintIntInjective(one.keyId, other.keyId);
    }
  }

  /**
   * An upload is valid if and only if its key ID is a safe integer that is not
   * negative, its key decodes, and it has a signature that decodes, or none for a
   * one-time EC prekey.
   */
  lemma ValidIff(decode: Decoder, upload: Upload)
    ensures IsValid(decode, upload) <==>
            && 0 <= upload.keyId <= Decimal.MAX_SAFE_INTEGER && decode(upload.publicKey).Some?
            && (upload.kind == EcPreKey <==> upload.signature.None?)
            && (upload.signature.Some? ==> decode(upload.signature.value).Some?)
  {
  }

  /** The prekey of a valid upload. */
  lemma UploadedPreKey(decode: Decoder, upload: Upload)
    requires IsValid(decode, upload)
    ensures var prekey := RegistrationPreKeyUpload(decode, upload).value;
            && prekey.algorithm == (match upload.kind
                                    case EcPreKey => EcX25519
                                    case EcSignedPreKey => EcX25519
                                    case KemOneTimePreKey => KemMlKem1024
                                    case KemLastResortPreKey => KemMlKem1024)
            && prekey.keyId == upload.keyId && Some(prekey.publicKey) == decode(upload.publicKey)
            && prekey.signature
               == (if upload.signature.Some? then decode(upload.signature.value) else None)
  {
  }

  /** The replacements of a type are the prekeys of its uploads, in upload order. */
  lemma {:induction false} ReplacementsInOrder(decode: Decoder, uploads: seq<Upload>, more: seq<Upload>,
                                               kind: UploadType)
    requires AllValid(decode, uploads + more)
    ensures AllValid(decode, uploads) && AllValid(decode, more)
    ensures Replacements(decode, uploads + more, kind)
            == Replacements(decode, uploads, kind) + Replacements(decode, more, kind)
  {
    assert forall upload :: upload in uploads || upload in more ==> upload in uploads + more;
    if more == [] {
      assert uploads + more == uploads;
    } else {
      var front := more[..|more| - 1];
      assert (uploads + more)[..|uploads + more| - 1] == uploads + front;
      assert forall upload :: upload in uploads + front ==> upload in uploads + more;
      ReplacementsInOrder(decode, uploads, front, kind);
    }
  }

  lemma {:induction false} ReplacementsIff(decode: Decoder, uploads: seq<Upload>, kind: UploadType)
    requires AllValid(decode, uploads)
    ensures forall prekey :: prekey in Replacements(decode, uploads, kind) <==>
              exists upload :: upload in uploads && upload.kind == kind
                               && prekey == RegistrationPreKeyUpload(decode, upload).value
  {
    if uploads != [] {
      var front, last := uploads[..|uploads| - 1], uploads[|uploads| - 1];
      ReplacementsIff(decode, front, kind);
      assert uploads == front + [last];
    }
  }

  /**
   * The replaced list holds exactly the prekeys whose algorithm has no upload of
   * the kinds of the list, and the prekeys of the uploads of those kinds.
   */
  lemma ReplacedIff(decode: Decoder, current: seq<PreKey>, uploads: seq<Upload>, ec: UploadType, kem: UploadType,
                    prekey: PreKey)
    requires AllValid(decode, uploads)
    ensures prekey in ReplacedList(decode, current, uploads, ec, kem) <==>
            || (prekey in current
                && forall upload :: upload in uploads ==>
                     upload.kind != (if prekey.algorithm == EcX25519 then ec else kem))
            || exists upload :: upload in uploads && (upload.kind == ec || upload.kind == kem)
                                && prekey == RegistrationPreKeyUpload(decode, upload).value
  {
    FilterMembers(current, one => IsKept(uploads, ec, kem, one));
    ReplacementsIff(decode, uploads, ec);
    ReplacementsIff(decode, uploads, kem);
    var kind := if prekey.algorithm == EcX25519 then ec else kem;
    if upload :| upload in uploads && upload.kind == kind {
      var i :| 0 <= i < |uploads| && uploads[i] == upload;
      assert HasUpload(uploads, kind);
    }
  }

  // --- Facts about replacements ------------------------------------------------------------

  lemma {:induction false} ReplacementsOfType(decode: Decoder, uploads: seq<Upload>, kind: UploadType)
    requires AllValid(decode, uploads)
    ensures forall prekey :: prekey in Replacements(decode, uploads, kind) ==> prekey.algorithm == AlgorithmOf(kind)
    ensures Replacements(decode, uploads, kind) != [] <==> HasUpload(uploads, kind)
  {
    if uploads != [] {
      var front, last := uploads[..|uploads| - 1], uploads[|uploads| - 1];
      ReplacementsOfType(decode, front, kind);
      assert IsValid(decode, last);
      assert HasUpload(front, kind) ==> HasUpload(uploads, kind);
      assert last.kind == kind ==> HasUpload(uploads, kind);
    }
  }

  /** A list after uploads of one type: the prekeys of the algorithm go out and the uploads come last. */
  function ReplaceOne(target: seq<PreKey>, algorithm: Algorithm, replacements: seq<PreKey>): seq<PreKey> {
    if replacements == [] then target
    else Filter(target, (prekey: PreKey) => prekey.algorithm != algorithm) + replacements
  }

  lemma ReplaceOneFilters(target: seq<PreKey>, algorithm: Algorithm, replacements: seq<PreKey>)
    ensures ReplaceOne(target, algorithm, replacements)
            == Filter(target, (prekey: PreKey) => prekey.algorithm != algorithm || replacements == []) + replacements
  {
    if replacements == [] {
      FilterAll(target, (prekey: PreKey) => prekey.algorithm != algorithm || replacements == []);
    } else {
      SameFilter(target, (prekey: PreKey) => prekey.algorithm != algorithm,
                 (prekey: PreKey) => prekey.algorithm != algorithm || replacements == []);
    }
  }

  /** Replacing the two types of one list after each other is the replaced list. */
  lemma ReplaceBoth(decode: Decoder, current: seq<PreKey>, uploads: seq<Upload>, ec: UploadType, kem: UploadType)
    requires AllValid(decode, uploads)
    requires AlgorithmOf(ec) == EcX25519 && AlgorithmOf(kem) == KemMlKem1024
    ensures ReplaceOne(ReplaceOne(current, EcX25519, Replacements(decode, uploads, ec)),
                       KemMlKem1024, Replacements(decode, uploads, kem))
            == ReplacedList(decode, current, uploads, ec, kem)
  {
    var first, second := Replacements(decode, uploads, ec), Replacements(decode, uploads, kem);
    ReplacementsOfType(decode, uploads, ec);
    ReplacementsOfType(decode, uploads, kem);
    var keepFirst := (prekey: PreKey) => prekey.algorithm != EcX25519 || first == [];
    var keepSecond := (prekey: PreKey) => prekey.algorithm != KemMlKem1024 || second == [];
    ReplaceOneFilters(current, EcX25519, first);
    SameFilter(current, (prekey: PreKey) => prekey.algorithm != EcX25519 || first == [], keepFirst);
    var half := Filter(current, keepFirst) + first;
    ReplaceOneFilters(half, KemMlKem1024, second);
    SameFilter(half, (prekey: PreKey) => prekey.algorithm != KemMlKem1024 || second == [], keepSecond);
    FilterAppend(Filter(current, keepFirst), first, keepSecond);
    FilterAll(first, keepSecond);
    FilterTwice(current, keepFirst, keepSecond, prekey => IsKept(uploads, ec, kem, prekey));
  }

  /** Applying the same uploads again changes nothing. */
  lemma ReplacedIsIdempotent(decode: Decoder, current: PreKeys, uploads: seq<Upload>)
    requires AllValid(decode, uploads)
    ensures Replaced(decode, Replaced(decode, current, uploads), uploads) == Replaced(decode, current, uploads)
  {
    ListIsIdempotent(decode, current.oneTime, uploads, EcPreKey, KemOneTimePreKey);
    ListIsIdempotent(decode, current.signed, uploads, EcSignedPreKey, KemLastResortPreKey);
  }

  lemma ListIsIdempotent(decode: Decoder, current: seq<PreKey>, uploads: seq<Upload>, ec: UploadType, kem: UploadType)
    requires AllValid(decode, uploads)
    requires AlgorithmOf(ec) == EcX25519 && AlgorithmOf(kem) == KemMlKem1024
    ensures var once := ReplacedList(decode, current, uploads, ec, kem);
            ReplacedList(decode, once, uploads, ec, kem) == once
  {
    var first, second := Replacements(decode, uploads, ec), Replacements(decode, uploads, kem);
    var keep := (prekey: PreKey) => IsKept(uploads, ec, kem, prekey);
    var kept := Filter(current, keep);
    ReplacementsOfType(decode, uploads, ec);
    ReplacementsOfType(decode, uploads, kem);
    FilterMembers(current, keep);
    FilterOfThree(kept, first, second, keep);
    SameFilter(current, prekey => IsKept(uploads, ec, kem, prekey), keep);
    SameFilter(kept + first + second, prekey => IsKept(uploads, ec, kem, prekey), keep);
  }

  lemma FilterOfThree(kept: seq<PreKey>, first: seq<PreKey>, second: seq<PreKey>, keep: PreKey -> bool)
    requires forall prekey :: prekey in kept ==> keep(prekey)
    requires forall prekey :: prekey in first ==> !keep(prekey)
    requires forall prekey :: prekey in second ==> !keep(prekey)
    ensures Filter(kept + first + second, keep) == kept
  {
    FilterAll(kept, keep);
    FilterNone(first, keep);
    FilterNone(second, keep);
    FilterAppend(kept, first, keep);
    FilterAppend(kept + first, second, keep);
  }

  // --- The operation ----------------------------------------------------------------------------

  /** The prekeys of the uploads of one type, or the error of the first invalid one. */
  method ConvertUploads(decode: Decoder, uploads: seq<Upload>, kind: UploadType)
    returns (result: Result<seq<PreKey>, Error>)
    ensures result.Ok? <==> KindValid(decode, uploads, kind)
    ensures result.Ok? && AllValid(decode, uploads) ==>
              result.value == Replacements(decode, uploads, kind)
    ensures result.Err? ==> !result.error.RepeatsIdentifier?
  {
    var prekeys := [];
    for i := 0 to |uploads|
      invariant KindValid(decode, uploads[..i], kind)
      invariant AllValid(decode, uploads[..i]) ==>
                  prekeys == Replacements(decode, uploads[..i], kind)
    {
      assert uploads[..i + 1][..i] == uploads[..i];
      assert uploads[..i + 1] == uploads[..i] + [uploads[i]];
      if uploads[i].kind == kind {
        var prekey := RegistrationPreKeyUpload(decode, uploads[i]);
        if prekey.Err? {
          return Err(prekey.error);
        }
        prekeys := prekeys + [prekey.value];
      }
    }
    assert uploads[..|uploads|] == uploads;
    return Ok(prekeys);
  }

  /** The prekeys of a list that are not of an algorithm. */
  function Others(prekeys: seq<PreKey>, algorithm: Algorithm): seq<PreKey> {
    Filter(prekeys, (prekey: PreKey) => prekey.algorithm != algorithm)
  }

  lemma OthersFirst(prekey: PreKey, rest: seq<PreKey>, algorithm: Algorithm)
    ensures Others([prekey] + rest, algorithm)
            == if prekey.algorithm != algorithm then [prekey] + Others(rest, algorithm) else Others(rest, algorithm)
  {
    var keep := (other: PreKey) => other.algorithm != algorithm;
    FilterAppend([prekey], rest, keep);
    assert [prekey][..0] == [];
    SameFilter([prekey] + rest, keep, (other: PreKey) => other.algorithm != algorithm);
    SameFilter(rest, keep, (other: PreKey) => other.algorithm != algorithm);
  }

  /** The list while the splice is at an index: what is before it, and what is kept from it on. */
  function Spliced(current: seq<PreKey>, index: nat, algorithm: Algorithm): seq<PreKey>
    requires index <= |current|
  {
    current[..index] + Others(current[index..], algorithm)
  }

  lemma SpliceOne(current: seq<PreKey>, index: nat, algorithm: Algorithm)
    requires index < |current|
    ensures var target := Spliced(current, index + 1, algorithm);
            && |target| > index && target[index] == current[index]
            && (if current[index].algorithm != algorithm then target else target[..index] + target[index + 1..])
               == Spliced(current, index, algorithm)
  {
    var rest := current[index + 1..];
    assert current[index..] == [current[index]] + rest;
    OthersFirst(current[index], rest, algorithm);
    assert current[..index + 1] == current[..index] + [current[index]];
    ConcatIsAssociative(current[..index], [current[index]], Others(rest, algorithm));
  }

  lemma SplicedEnds(current: seq<PreKey>, algorithm: Algorithm, replacements: seq<PreKey>)
    requires replacements != []
    ensures Spliced(current, |current|, algorithm) == current
    ensures Spliced(current, 0, algorithm) + replacements == ReplaceOne(current, algorithm, replacements)
  {
    var keep := (prekey: PreKey) => prekey.algorithm != algorithm;
    assert current[0..] == current;
    SameFilter(current, keep, (prekey: PreKey) => prekey.algorithm != algorithm);
  }

  /** Splice the prekeys of one algorithm out of a list, from its end, and push the replacements. */
  method SpliceAndPush(current: seq<PreKey>, algorithm: Algorithm, replacements: seq<PreKey>)
    returns (target: seq<PreKey>)
    ensures target == ReplaceOne(current, algorithm, replacements)
  {
    target := current;
    if replacements == [] {
      return;
    }
    SplicedEnds(current, algorithm, replacements);
    var index := |target| - 1;
    while index >= 0
      invariant -1 <= index < |current|
      invariant target == Spliced(current, index + 1, algorithm)
    {
      SpliceOne(current, index, algorithm);
      if target[index].algorithm == algorithm {
        target := target[..index] + target[index + 1..];
      }
      index := index - 1;
    }
    target := target + replacements;
  }

  function Identifiers(prekeys: seq<PreKey>): (names: seq<string>)
    ensures |names| == |prekeys|
    ensures forall i :: 0 <= i < |prekeys| ==> names[i] == Identifier(prekeys[i])
  {
    seq(|prekeys|, i requires 0 <= i < |prekeys| => Identifier(prekeys[i]))
  }

  lemma UniqueIdentifiersAreUniqueNames(prekeys: seq<PreKey>)
    ensures Unique(Identifiers(prekeys)) <==> UniqueIdentifiers(prekeys)
  {
    var names := Identifiers(prekeys);
    forall i, j | 0 <= i < j < |prekeys|
      ensures names[i] == names[j] <==>
              prekeys[i].algorithm == prekeys[j].algorithm && prekeys[i].keyId == prekeys[j].keyId
    {
      IdentifierNames(prekeys[i], prekeys[j]);
    }
  }

  /** Tell whether no identifier of a list repeats. */
  method HasNoRepeat(names: seq<string>) returns (unique: bool)
    ensures unique <==> Unique(names)
  {
    var identifiers: set<string> := {};
    for i := 0 to |names|
      invariant Unique(names[..i])
      invariant forall name :: name in identifiers <==> name in names[..i]
    {
      if names[i] in identifiers {
        return false;
      }
      identifiers := identifiers + {names[i]};
    }
    assert names[..|names|] == names;
    return true;
  }

  /** The prekeys, when no identifier repeats in one of their lists. */
  method CheckIdentifiers(prekeys: PreKeys) returns (result: Result<PreKeys, Error>)
    ensures result.Ok? <==> UniqueIdentifiers(prekeys.oneTime) && UniqueIdentifiers(prekeys.signed)
    ensures result.Ok? ==> result.value == prekeys
    ensures result.Err? ==> result.error.RepeatsIdentifier?
  {
    UniqueIdentifiersAreUniqueNames(prekeys.oneTime);
    UniqueIdentifiersAreUniqueNames(prekeys.signed);
    var unique := HasNoRepeat(Identifiers(prekeys.oneTime));
    if !unique {
      return Err(RepeatsIdentifier(false));
    }
    unique := HasNoRepeat(Identifiers(prekeys.signed));
    if !unique {
      return Err(RepeatsIdentifier(true));
    }
    return Ok(prekeys);
  }

  lemma ValidByKind(decode: Decoder, uploads: seq<Upload>)
    ensures AllValid(decode, uploads) <==>
            && KindValid(decode, uploads, EcPreKey) && KindValid(decode, uploads, KemOneTimePreKey)
            && KindValid(decode, uploads, EcSignedPreKey) && KindValid(decode, uploads, KemLastResortPreKey)
  {
    forall upload | upload in uploads
      ensures KindValid(decode, uploads, upload.kind) ==> IsValid(decode, upload)
    {
      match upload.kind
      case EcPreKey =>
      case KemOneTimePreKey =>
      case EcSignedPreKey =>
      case KemLastResortPreKey =>
    }
  }

  /** Replace the two types of one list, one after the other. */
  method ReplaceList(decode: Decoder, current: seq<PreKey>, uploads: seq<Upload>, ec: UploadType, kem: UploadType)
    returns (result: Result<seq<PreKey>, Error>)
    requires AlgorithmOf(ec) == EcX25519 && AlgorithmOf(kem) == KemMlKem1024
    ensures result.Ok? <==> KindValid(decode, uploads, ec) && KindValid(decode, uploads, kem)
    ensures result.Ok? && AllValid(decode, uploads) ==>
              result.value == ReplacedList(decode, current, uploads, ec, kem)
    ensures result.Err? ==> !result.error.RepeatsIdentifier?
  {
    var first := ConvertUploads(decode, uploads, ec);
    if first.Err? {
      return Err(first.error);
    }
    var target := SpliceAndPush(current, EcX25519, first.value);
    var second := ConvertUploads(decode, uploads, kem);
    if second.Err? {
      return Err(second.error);
    }
    target := SpliceAndPush(target, KemMlKem1024, second.value);
    if AllValid(decode, uploads) {
      ReplaceBoth(decode, current, uploads, ec, kem);
    }
    return Ok(target);
  }

  /**
   * Replace exactly the kind and algorithm classes that have uploads, in upload
   * order. It fails if and only if an upload is invalid or an identifier repeats.
   */
  method ApplyPreKeyUploads(decode: Decoder, current: PreKeys, uploads: seq<Upload>)
    returns (result: Result<PreKeys, Error>)
    ensures result.Ok? <==>
            && AllValid(decode, uploads)
            && UniqueIdentifiers(Replaced(decode, current, uploads).oneTime)
            && UniqueIdentifiers(Replaced(decode, current, uploads).signed)
    ensures result.Ok? ==> result.value == Replaced(decode, current, uploads)
    ensures result.Err? && result.error.RepeatsIdentifier? ==> AllValid(decode, uploads)
  {
    ValidByKind(decode, uploads);
    var oneTime := ReplaceList(decode, current.oneTime, uploads, EcPreKey, KemOneTimePreKey);
    if oneTime.Err? {
      return Err(oneTime.error);
    }
    var signed := ReplaceList(decode, current.signed, uploads, EcSignedPreKey, KemLastResortPreKey);
    if signed.Err? {
      return Err(signed.error);
    }
    result := CheckIdentifiers(PreKeys(oneTime.value, signed.value));
  }
}
