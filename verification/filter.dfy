/** The submit-time normaliser: drop the keys of the residence branch that
    was not chosen, and rewrite `student_code` into its canonical form. */
module Filter {
  import opened Wrappers
  import opened Text
  import opened Fields

  /** The programme prefix of every canonical student code. */
  const CodePrefix := "BWU/BCA/23/"

  /** `'BWU/BCA/23/' + code`, where a missing code reads as "undefined". */
  function CanonicalCode(code: Option<string>): (c: string)
    ensures StartsWith(c, CodePrefix)
    ensures c[|CodePrefix|..] == Stringify(code)
  {
    CodePrefix + Stringify(code)
  }

  /** The inverse of `CanonicalCode` on strings that carry the prefix. */
  function RawCode(canonical: string): (raw: Option<string>)
    ensures raw.Some? <==> StartsWith(canonical, CodePrefix)
    ensures raw.Some? ==> CodePrefix + raw.value == canonical
  {
    if StartsWith(canonical, CodePrefix) then Some(canonical[|CodePrefix|..]) else None
  }

  /** Removing the prefix gives back the entered code. */
  lemma CanonicalRoundTrip(code: string)
    ensures RawCode(CanonicalCode(Some(code))) == Some(code)
  {
  }

  /** Distinct entered codes give distinct canonical codes. */
  lemma CanonicalInjective(a: string, b: string)
    ensures CanonicalCode(Some(a)) == CanonicalCode(Some(b)) ==> a == b
  {
    CanonicalRoundTrip(a);
    CanonicalRoundTrip(b);
  }

  /** A three-character code is prefixed exactly once: what follows the
      prefix is the code itself and does not start with the prefix again,
      so canonicalising twice does not give the same string. */
  lemma PrefixedOnce(code: string)
    requires |code| == 3
    ensures |CanonicalCode(Some(code))| == |CodePrefix| + 3
    ensures RawCode(CanonicalCode(Some(code))) == Some(code)
    ensures !StartsWith(code, CodePrefix)
    ensures CanonicalCode(Some(CanonicalCode(Some(code)))) != CanonicalCode(Some(code))
  {
    CanonicalRoundTrip(code);
    assert |CanonicalCode(Some(CanonicalCode(Some(code))))| == |CodePrefix| + |CodePrefix| + 3;
  }

  /** The keys a branch removes: in the home branch every `pg…` key and the
      four home parts already folded into `home_address`; in the pg branch
      every `home…` key; nothing otherwise. */
  predicate Dropped(b: Branch, key: string)
  {
    match b
    case Home => StartsWith(key, PgValue) || key in HomeParts
    case Pg => StartsWith(key, HomeValue)
    case Unset => false
  }

  /** The payload built from validated data. */
  function FilterData(data: map<string, string>): (r: map<string, string>)
    ensures StudentCode in r && r[StudentCode] == CanonicalCode(Lookup(data, StudentCode))
    ensures forall k :: k in r && k != StudentCode ==> k in data && r[k] == data[k]
    ensures BranchOf(Lookup(data, PlaceOfLiving)) == Home ==>
      forall k :: k in r ==> !StartsWith(k, PgValue) && k !in HomeParts
    ensures BranchOf(Lookup(data, PlaceOfLiving)) == Home ==>
      forall k :: k in data && !StartsWith(k, PgValue) && k !in HomeParts ==> k in r
    ensures BranchOf(Lookup(data, PlaceOfLiving)) == Pg ==>
      forall k :: k in r && k != StudentCode ==> !StartsWith(k, HomeValue)
    ensures BranchOf(Lookup(data, PlaceOfLiving)) == Pg ==>
      forall k :: k in data && !StartsWith(k, HomeValue) ==> k in r
    ensures BranchOf(Lookup(data, PlaceOfLiving)) == Unset ==> r.Keys == data.Keys + {StudentCode}
  {
    var branch := BranchOf(Lookup(data, PlaceOfLiving));
    var kept := map k | k in data && !Dropped(branch, k) :: data[k];
    assert StudentCode[..2][0] != PgValue[0];
    kept[StudentCode := CanonicalCode(Lookup(data, StudentCode))]
  }
}
