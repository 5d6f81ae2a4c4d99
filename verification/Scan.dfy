/** The identifier scan: every encoded form of every vault value, indexed by its first bytes, searched in one pass. */
module Scan {
  import opened Rows

  type Byte = n: int | 0 <= n < 256

  type Bytes = seq<Byte>

  /** A form shorter than this is never indexed under a prefix a reading can show. */
  const SHORT_VALUE := 6

  datatype Entry = Entry(form: Bytes, token: string)

  datatype Needle = Needle(token: string, forms: seq<Bytes>)

  function Prefix(form: Bytes): Bytes {
    if |form| < SHORT_VALUE then form else form[..SHORT_VALUE]
  }

  predicate OccursAt(form: Bytes, haystack: Bytes, p: nat) {
    p + |form| <= |haystack| && haystack[p..p + |form|] == form
  }

  /** The form of a token, long enough to mean anything, is at a place in the haystack. */
  ghost predicate HitAt(entries: set<Entry>, token: string, form: Bytes, haystack: Bytes, p: nat) {
    Entry(form, token) in entries && |form| >= SHORT_VALUE && OccursAt(form, haystack, p)
  }

  /** The token occurs somewhere: what searching its forms one by one would find. */
  ghost predicate Occurs(entries: set<Entry>, token: string, haystack: Bytes) {
    exists form, p: nat :: HitAt(entries, token, form, haystack, p)
  }

  /** No form of the token is anywhere before a place. */
  ghost predicate NotBefore(entries: set<Entry>, token: string, haystack: Bytes, p: nat) {
    forall form, q: nat :: q < p ==> !HitAt(entries, token, form, haystack, q)
  }

  /** A token occurs wherever a form of it of six bytes or more stands in the haystack, and nowhere else. */
  lemma {:induction false} OccursWhereAFormStands(entries: set<Entry>, token: string, haystack: Bytes)
    ensures Occurs(entries, token, haystack) <==>
              exists e, before: Bytes, after: Bytes ::
                e in entries && e.token == token && |e.form| >= 6 && haystack == before + e.form + after
  {
    if Occurs(entries, token, haystack) {
      var form, p: nat :| HitAt(entries, token, form, haystack, p);
      var e := Entry(form, token);
      assert e in entries && haystack == haystack[..p] + e.form + haystack[p + |form|..];
    }
    if e, before: Bytes, after: Bytes :|
        e in entries && e.token == token && |e.form| >= 6 && haystack == before + e.form + after {
      assert haystack[|before|..|before| + |e.form|] == e.form;
      assert HitAt(entries, token, e.form, haystack, |before|);
    }
  }

  function EntriesOf(needles: seq<Needle>): set<Entry> {
    set i, j | 0 <= i < |needles| && 0 <= j < |needles[i].forms| :: Entry(needles[i].forms[j], needles[i].token)
  }

  function Candidates(byPrefix: map<Bytes, seq<Entry>>, prefix: Bytes): seq<Entry> {
    if prefix in byPrefix then byPrefix[prefix] else []
  }

  /** The index holds every entry under its own prefix, and nothing else. */
  ghost predicate Indexes(byPrefix: map<Bytes, seq<Entry>>, entries: set<Entry>) {
    forall prefix, e :: e in Candidates(byPrefix, prefix) <==> e in entries && Prefix(e.form) == prefix
  }

  lemma {:induction false} IndexOne(byPrefix: map<Bytes, seq<Entry>>, entries: set<Entry>, e: Entry)
    requires Indexes(byPrefix, entries)
    ensures Indexes(byPrefix[Prefix(e.form) := Candidates(byPrefix, Prefix(e.form)) + [e]], entries + {e})
  {
    var longer := byPrefix[Prefix(e.form) := Candidates(byPrefix, Prefix(e.form)) + [e]];
    forall prefix, other
      ensures other in Candidates(longer, prefix) <==> other in entries + {e} && Prefix(other.form) == prefix
    {
      assert Candidates(longer, prefix)
          == if prefix == Prefix(e.form) then Candidates(byPrefix, prefix) + [e] else Candidates(byPrefix, prefix);
    }
  }

  class Matcher {
    var byPrefix: map<Bytes, seq<Entry>>
    ghost var entries: set<Entry>

    ghost predicate Valid()
      reads this
    {
      Indexes(byPrefix, entries)
    }

    constructor (needles: seq<Needle>)
      ensures Valid() && entries == EntriesOf(needles)
    {
      var index: map<Bytes, seq<Entry>> := map[];
      ghost var indexed: set<Entry> := {};
      for i := 0 to |needles|
        invariant Indexes(index, indexed) && indexed == EntriesOf(needles[..i])
      {
        ghost var before := indexed;
        for j := 0 to |needles[i].forms|
          invariant Indexes(index, indexed)
          invariant indexed == before + set k | 0 <= k < j :: Entry(needles[i].forms[k], needles[i].token)
        {
          var form := needles[i].forms[j];
          var e := Entry(form, needles[i].token);
          IndexOne(index, indexed, e);
          index := index[Prefix(form) := Candidates(index, Prefix(form)) + [e]];
          indexed := indexed + {e};
        }
        NextNeedle(needles, i);
      }
      assert needles[..|needles|] == needles;
      byPrefix, entries := index, indexed;
    }

    /** One pass over the haystack, looking each position up once. A token is reported exactly when one of its forms
        occurs somewhere, with the length of a form found at the token's earliest place. */
    method TokensIn(haystack: Bytes) returns (found: map<string, nat>)
      requires Valid()
      ensures forall token :: token in found <==> Occurs(entries, token, haystack)
      ensures forall token :: token in found ==>
                exists form, p: nat :: HitAt(entries, token, form, haystack, p) && |form| == found[token]
                                  && NotBefore(entries, token, haystack, p)
    {
      found := map[];
      var position := 0;
      while position + SHORT_VALUE <= |haystack|
        invariant FoundBefore(entries, haystack, position, found)
      {
        var candidates := Candidates(byPrefix, haystack[position..position + SHORT_VALUE]);
        found := FoundHere(candidates, haystack, position, found);
        position := position + 1;
      }
      NothingFitsAfter(entries, haystack, position, found);
    }

    /** The candidates of one position, compared in full. */
    method FoundHere(candidates: seq<Entry>, haystack: Bytes, position: nat, before: map<string, nat>)
      returns (found: map<string, nat>)
      requires Valid() && position + SHORT_VALUE <= |haystack|
      requires candidates == Candidates(byPrefix, haystack[position..position + SHORT_VALUE])
      requires FoundBefore(entries, haystack, position, before)
      ensures FoundBefore(entries, haystack, position + 1, found)
    {
      found := before;
      for c := 0 to |candidates|
        invariant Added(entries, haystack, position, before, found)
        invariant Covered(candidates[..c], haystack, position, found)
      {
        var e := candidates[c];
        assert candidates[..c + 1] == candidates[..c] + [e];
        if OccursAt(e.form, haystack, position) && e.token !in found {
          CandidateHits(byPrefix, entries, haystack, position, e);
          AddHit(entries, haystack, position, before, found, e);
          found := found[e.token := |e.form|];
        }
      }
      assert candidates[..|candidates|] == candidates;
      PositionDone(byPrefix, entries, haystack, position, before, found);
    }
  }

  lemma {:induction false} NextNeedle(needles: seq<Needle>, i: nat)
    requires i < |needles|
    ensures EntriesOf(needles[..i + 1])
         == EntriesOf(needles[..i])
           + set k | 0 <= k < |needles[i].forms| :: Entry(needles[i].forms[k], needles[i].token)
  {
    var longer := needles[..i + 1];
    forall e | e in EntriesOf(longer)
      ensures e in EntriesOf(needles[..i])
              + set k | 0 <= k < |needles[i].forms| :: Entry(needles[i].forms[k], needles[i].token)
    {
      var a, b :| 0 <= a < |longer| && 0 <= b < |longer[a].forms| && e == Entry(longer[a].forms[b], longer[a].token);
      assert a < i ==> needles[..i][a] == longer[a];
    }
    forall e | e in EntriesOf(needles[..i]) ensures e in EntriesOf(longer) {
      var a, b :| 0 <= a < i && 0 <= b < |needles[a].forms| && e == Entry(needles[a].forms[b], needles[a].token);
      assert longer[a] == needles[a];
    }
    assert longer[i] == needles[i];
  }

  /** What is known when every position before one has been looked up. */
  ghost predicate FoundBefore(entries: set<Entry>, haystack: Bytes, position: nat, found: map<string, nat>) {
    && (forall token :: token !in found ==> NotBefore(entries, token, haystack, position))
    && (forall token :: token in found ==> FirstHit(entries, token, haystack, position, found[token]))
  }

  ghost predicate FirstHit(entries: set<Entry>, token: string, haystack: Bytes, position: nat, length: nat) {
    exists form, p: nat :: p < position && HitAt(entries, token, form, haystack, p) && |form| == length
                      && NotBefore(entries, token, haystack, p)
  }

  /** Tokens added at a position were hit there, and none already found is touched. */
  ghost predicate Added(
    entries: set<Entry>, haystack: Bytes, p: nat, before: map<string, nat>, found: map<string, nat>) {
    && before.Keys <= found.Keys && (forall token :: token in before ==> found[token] == before[token])
    && forall token :: token in found && token !in before ==> HitHere(entries, token, haystack, p, found[token])
  }

  ghost predicate HitHere(entries: set<Entry>, token: string, haystack: Bytes, p: nat, length: nat) {
    exists form :: HitAt(entries, token, form, haystack, p) && |form| == length
  }

  /** Every candidate that compares in full has its token found. */
  ghost predicate Covered(candidates: seq<Entry>, haystack: Bytes, p: nat, found: map<string, nat>) {
    forall e :: e in candidates && OccursAt(e.form, haystack, p) ==> e.token in found
  }

  lemma {:induction false} AddHit(
      entries: set<Entry>, haystack: Bytes, p: nat, before: map<string, nat>, found: map<string, nat>, e: Entry)
    requires Added(entries, haystack, p, before, found) && e.token !in found
    requires HitAt(entries, e.token, e.form, haystack, p)
    ensures Added(entries, haystack, p, before, found[e.token := |e.form|])
  {
    assert HitHere(entries, e.token, haystack, p, |e.form|);
  }

  /** A candidate that compares in full is a hit: its prefix is six bytes long, so it is too. */
  lemma {:induction false} CandidateHits(
    byPrefix: map<Bytes, seq<Entry>>, entries: set<Entry>, haystack: Bytes, p: nat, e: Entry)
    requires Indexes(byPrefix, entries) && p + SHORT_VALUE <= |haystack|
    requires e in Candidates(byPrefix, haystack[p..p + SHORT_VALUE]) && OccursAt(e.form, haystack, p)
    ensures HitAt(entries, e.token, e.form, haystack, p)
  {
    assert |Prefix(e.form)| == SHORT_VALUE;
  }

  /** And every hit at a position is among its candidates. */
  lemma {:induction false} HitIsCandidate(
      byPrefix: map<Bytes, seq<Entry>>, entries: set<Entry>, token: string, form: Bytes, haystack: Bytes, p: nat)
    requires Indexes(byPrefix, entries) && HitAt(entries, token, form, haystack, p)
    ensures p + SHORT_VALUE <= |haystack|
    ensures Entry(form, token) in Candidates(byPrefix, haystack[p..p + SHORT_VALUE])
  {
    assert haystack[p..p + SHORT_VALUE] == haystack[p..p + |form|][..SHORT_VALUE];
  }

  lemma {:induction false} PositionDone(
      byPrefix: map<Bytes, seq<Entry>>, entries: set<Entry>, haystack: Bytes, p: nat, before: map<string, nat>,
      found: map<string, nat>)
    requires Indexes(byPrefix, entries) && p + SHORT_VALUE <= |haystack| && FoundBefore(entries, haystack, p, before)
    requires Added(entries, haystack, p, before, found)
    requires Covered(Candidates(byPrefix, haystack[p..p + SHORT_VALUE]), haystack, p, found)
    ensures FoundBefore(entries, haystack, p + 1, found)
  {
    forall token | token !in found ensures NotBefore(entries, token, haystack, p + 1) {
      forall form, q: nat | q < p + 1 ensures !HitAt(entries, token, form, haystack, q) {
        if q == p && HitAt(entries, token, form, haystack, p) {
          HitIsCandidate(byPrefix, entries, token, form, haystack, p);
          assert false;
        }
      }
    }
    forall token | token in found ensures FirstHit(entries, token, haystack, p + 1, found[token]) {
      if token in before {
        assert FirstHit(entries, token, haystack, p, before[token]);
      } else {
        assert HitHere(entries, token, haystack, p, found[token]);
        var form :| HitAt(entries, token, form, haystack, p) && |form| == found[token];
        assert NotBefore(entries, token, haystack, p);
      }
    }
  }

  lemma {:induction false} NothingFitsAfter(
    entries: set<Entry>, haystack: Bytes, position: nat, found: map<string, nat>)
    requires FoundBefore(entries, haystack, position, found) && position + SHORT_VALUE > |haystack|
    ensures forall token :: token in found <==> Occurs(entries, token, haystack)
    ensures forall token :: token in found ==>
              exists form, p: nat :: HitAt(entries, token, form, haystack, p) && |form| == found[token]
                                && NotBefore(entries, token, haystack, p)
  {
    forall token ensures token in found <==> Occurs(entries, token, haystack) {
      if token in found {
        assert FirstHit(entries, token, haystack, position, found[token]);
      }
      if Occurs(entries, token, haystack) {
        var form, p: nat :| HitAt(entries, token, form, haystack, p);
        assert token !in found ==> NotBefore(entries, token, haystack, position);
      }
    }
    forall token | token in found
      ensures exists form, p: nat :: HitAt(entries, token, form, haystack, p) && |form| == found[token]
                                && NotBefore(entries, token, haystack, p)
    {
      assert FirstHit(entries, token, haystack, position, found[token]);
    }
  }

  // ---------------------------------------------------------------- judging one object

  datatype Reading = RawBytes | Decoded

  datatype Hit = Hit(token: string, reading: Reading, length: nat)

  const SANCTIONS_BRONZE := "bronze/opensanctions/"
  const SANCTIONS_QUARANTINE := "quarantine/opensanctions/"

  predicate InSanctionsScope(key: string) {
    SANCTIONS_BRONZE <= key || SANCTIONS_QUARANTINE <= key
  }

  /** The scope is the sanctions list's own objects, landed or quarantined. */
  lemma {:induction false} ScopeIsTheListsObjects(key: string)
    ensures InSanctionsScope(key) <==>
              exists rest :: key == "bronze/opensanctions/" + rest || key == "quarantine/opensanctions/" + rest
  {
    if SANCTIONS_BRONZE <= key {
      assert key == SANCTIONS_BRONZE + key[|SANCTIONS_BRONZE|..];
    }
    if SANCTIONS_QUARANTINE <= key {
      assert key == SANCTIONS_QUARANTINE + key[|SANCTIONS_QUARANTINE|..];
    }
  }

  /** Both readings of an object, as hits. */
  method Find(matcher: Matcher, body: Bytes, decoded: Bytes) returns (hits: seq<Hit>)
    requires matcher.Valid()
    ensures forall token ::
              (exists length :: Hit(token, RawBytes, length) in hits) <==> Occurs(matcher.entries, token, body)
    ensures forall token ::
              (exists length :: Hit(token, Decoded, length) in hits) <==> Occurs(matcher.entries, token, decoded)
  {
    var inBytes := matcher.TokensIn(body);
    var inDecoded := matcher.TokensIn(decoded);
    var first := HitsOf(inBytes, RawBytes);
    var second := HitsOf(inDecoded, Decoded);
    hits := first + second;
    forall token
      ensures (exists length :: Hit(token, RawBytes, length) in hits) <==> Occurs(matcher.entries, token, body)
    {
      if token in inBytes {
        assert Hit(token, RawBytes, inBytes[token]) in first;
      }
    }
    forall token
      ensures (exists length :: Hit(token, Decoded, length) in hits) <==> Occurs(matcher.entries, token, decoded)
    {
      if token in inDecoded {
        assert Hit(token, Decoded, inDecoded[token]) in second;
      }
    }
  }

  method HitsOf(found: map<string, nat>, reading: Reading) returns (hits: seq<Hit>)
    ensures forall h :: h in hits <==> h.reading == reading && h.token in found && found[h.token] == h.length
  {
    hits := [];
    var left := found.Keys;
    while left != {}
      invariant left <= found.Keys
      invariant forall h ::
                  h in hits <==> h.reading == reading && h.token in found.Keys - left && found[h.token] == h.length
      decreases left
    {
      var token :| token in left;
      hits := hits + [Hit(token, reading, found[token])];
      left := left - {token};
    }
  }

  /** What the publisher delivered for the object's snapshot, when its delivery is known. */
  datatype Delivered = Unknown | Known(file: Bytes)

  /** A hit is excused only for an object in the sanctions scope, and only when the file delivered for its snapshot
      carries the same value. */
  ghost predicate Excused(entries: set<Entry>, key: string, delivered: Delivered, token: string) {
    InSanctionsScope(key) && delivered.Known? && Occurs(entries, token, delivered.file)
  }

  method NotCarriedByTheList(matcher: Matcher, delivered: Delivered, found: seq<Hit>, carried: set<string>)
    returns (remaining: seq<Hit>, carriedNow: set<string>)
    requires matcher.Valid()
    ensures forall h :: h in remaining <==>
              h in found && !(delivered.Known? && Occurs(matcher.entries, h.token, delivered.file))
    ensures forall token :: token in carriedNow <==>
              token in carried
                || (delivered.Known? && Occurs(matcher.entries, token, delivered.file)
                    && exists h :: h in found && h.token == token)
  {
    if delivered.Unknown? {
      return found, carried;
    }
    var inDelivery := matcher.TokensIn(delivered.file);
    remaining, carriedNow := [], carried;
    for n := 0 to |found|
      invariant forall h :: h in remaining <==> h in found[..n] && h.token !in inDelivery
      invariant forall token :: token in carriedNow <==>
                  token in carried || (token in inDelivery && exists h :: h in found[..n] && h.token == token)
    {
      var h := found[n];
      assert found[..n + 1] == found[..n] + [h];
      if h.token in inDelivery {
        carriedNow := carriedNow + {h.token};
      } else {
        remaining := remaining + [h];
      }
    }
    assert found[..|found|] == found;
  }

  /** The one decision about an object: a token is reported exactly when a form of it occurs in a reading and the
      sanctions list does not excuse it. */
  method Judge(matcher: Matcher, key: string, body: Bytes, decoded: Bytes, delivered: Delivered, carried: set<string>)
    returns (hits: seq<Hit>, carriedNow: set<string>)
    requires matcher.Valid()
    ensures forall token :: (exists h :: h in hits && h.token == token) <==>
              (Occurs(matcher.entries, token, body) || Occurs(matcher.entries, token, decoded))
              && !Excused(matcher.entries, key, delivered, token)
    ensures forall token :: (exists length :: Hit(token, RawBytes, length) in hits) <==>
              Occurs(matcher.entries, token, body) && !Excused(matcher.entries, key, delivered, token)
    ensures forall token :: (exists length :: Hit(token, Decoded, length) in hits) <==>
              Occurs(matcher.entries, token, decoded) && !Excused(matcher.entries, key, delivered, token)
    ensures forall token :: token in carriedNow <==>
              token in carried || ((Occurs(matcher.entries, token, body) || Occurs(matcher.entries, token, decoded))
                                   && Excused(matcher.entries, key, delivered, token))
  {
    var found := Find(matcher, body, decoded);
    assert forall token :: (exists h :: h in found && h.token == token) <==>
                           Occurs(matcher.entries, token, body) || Occurs(matcher.entries, token, decoded) by {
      forall token | Occurs(matcher.entries, token, body) || Occurs(matcher.entries, token, decoded)
        ensures exists h :: h in found && h.token == token
      {
        if Occurs(matcher.entries, token, body) {
          var length :| Hit(token, RawBytes, length) in found;
          var h := Hit(token, RawBytes, length);
          assert h in found && h.token == token;
        } else {
          var length :| Hit(token, Decoded, length) in found;
          var h := Hit(token, Decoded, length);
          assert h in found && h.token == token;
        }
      }
      forall h | h in found
        ensures Occurs(matcher.entries, h.token, body) || Occurs(matcher.entries, h.token, decoded)
      {
        match h.reading
        case RawBytes => assert Hit(h.token, RawBytes, h.length) in found;
        case Decoded => assert Hit(h.token, Decoded, h.length) in found;
      }
    }
    var scoped := InSanctionsScope(key);
    if found != [] && scoped {
      hits, carriedNow := NotCarriedByTheList(matcher, delivered, found, carried);
    } else {
      hits, carriedNow := found, carried;
    }
  }
}
