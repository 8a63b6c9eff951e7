/**
 * Go's http.Header: a map from canonical header names to their values,
 * with the Set and Add operations and the Values lookup. Every name goes
 * through CanonicalMIMEHeaderKey first, so "content-type" and
 * "Content-Type" name the same entry.
 */
module Headers {
  import opened Text

  type Header = map<string, seq<string>>

  /** Upper-case the first letter and every letter that follows a '-',
      lower-case all others. */
  function CanonicalFrom(s: string, upper: bool): (r: string)
    ensures |r| == |s|
  {
    if s == [] then []
    else
      var c := if upper then ToUpperChar(s[0]) else ToLowerChar(s[0]);
      [c] + CanonicalFrom(s[1..], c == '-')
  }

  predicate AllTokenChars(s: string) {
    forall i :: 0 <= i < |s| ==> IsTokenChar(s[i])
  }

  /** textproto.CanonicalMIMEHeaderKey: a name holding any byte outside the
      token alphabet is left as it is; any other name is canonicalised. */
  function CanonicalKey(s: string): (r: string)
    ensures |r| == |s|
  {
    if AllTokenChars(s) then CanonicalFrom(s, true) else s
  }

  lemma {:induction false} CanonicalFromTokens(s: string, upper: bool)
    requires AllTokenChars(s)
    ensures AllTokenChars(CanonicalFrom(s, upper))
    ensures CanonicalFrom(CanonicalFrom(s, upper), upper) == CanonicalFrom(s, upper)
    decreases |s|
  {
    if s != [] {
      var c := if upper then ToUpperChar(s[0]) else ToLowerChar(s[0]);
      assert IsTokenChar(s[0]);
      assert forall i :: 0 <= i < |s[1..]| ==> s[1..][i] == s[i + 1];
      CanonicalFromTokens(s[1..], c == '-');
      var r := CanonicalFrom(s, upper);
      assert r[0] == c && r[1..] == CanonicalFrom(s[1..], c == '-');
      var c' := if upper then ToUpperChar(c) else ToLowerChar(c);
      assert c' == c;
      assert forall i :: 0 <= i < |r| ==> r[i] == if i == 0 then c else r[1..][i - 1];
    }
  }

  /** Canonicalising a canonical name changes nothing. */
  lemma CanonicalKeyIdempotent(s: string)
    ensures CanonicalKey(CanonicalKey(s)) == CanonicalKey(s)
  {
    if AllTokenChars(s) { CanonicalFromTokens(s, true); }
  }

  /** A name is made of token characters iff its canonical form is. */
  lemma CanonicalKeyTokens(s: string)
    ensures AllTokenChars(CanonicalKey(s)) <==> AllTokenChars(s)
  {
    if AllTokenChars(s) { CanonicalFromTokens(s, true); }
  }

  /** Every name stored in h is canonical, as Set and Add keep it. */
  predicate WellFormed(h: Header) {
    forall k :: k in h ==> CanonicalKey(k) == k
  }

  /** Header.Values: the values stored under the canonical form of key. */
  function Values(h: Header, key: string): seq<string> {
    var k := CanonicalKey(key);
    if k in h then h[k] else []
  }

  /** Header.Set: key now has exactly the one value; no other name changes. */
  function Set(h: Header, key: string, value: string): (r: Header)
    ensures Values(r, key) == [value]
    ensures forall k {:trigger Values(r, k)} :: CanonicalKey(k) != CanonicalKey(key) ==> Values(r, k) == Values(h, k)
    ensures WellFormed(h) ==> WellFormed(r)
  {
    CanonicalKeyIdempotent(key);
    h[CanonicalKey(key) := [value]]
  }

  /** Header.Add: value is appended after the values key already has. */
  function Add(h: Header, key: string, value: string): (r: Header)
    ensures Values(r, key) == Values(h, key) + [value]
    ensures forall k {:trigger Values(r, k)} :: CanonicalKey(k) != CanonicalKey(key) ==> Values(r, k) == Values(h, k)
    ensures WellFormed(h) ==> WellFormed(r)
  {
    CanonicalKeyIdempotent(key);
    h[CanonicalKey(key) := Values(h, key) + [value]]
  }

  /** Whether s[i] is upper-cased (at the start or after a '-') or
      lower-cased by canonicalisation. */
  predicate UpperAt(s: string, i: nat, upper: bool)
    requires i < |s|
  {
    if i == 0 then upper else s[i - 1] == '-'
  }

  /** Add seen through any spelling of the same name. */
  lemma AddSameName(h: Header, key: string, value: string, other: string)
    requires CanonicalKey(other) == CanonicalKey(key)
    ensures Values(Add(h, key, value), other) == Values(h, other) + [value]
  {
  }

  /** A name already in canonical shape: no letter changes case. */
  predicate CanonicalShape(s: string, upper: bool) {
    forall i :: 0 <= i < |s| ==>
      if UpperAt(s, i, upper) then !('a' <= s[i] <= 'z') else !IsUpper(s[i])
  }

  lemma {:induction false} CanonicalFromShape(s: string, upper: bool)
    requires CanonicalShape(s, upper)
    ensures CanonicalFrom(s, upper) == s
    decreases |s|
  {
    if s != [] {
      assert UpperAt(s, 0, upper) == upper;
      var t := s[1..];
      forall i | 0 <= i < |t|
        ensures if UpperAt(t, i, s[0] == '-') then !('a' <= t[i] <= 'z') else !IsUpper(t[i])
      {
        assert t[i] == s[i + 1] && UpperAt(t, i, s[0] == '-') == UpperAt(s, i + 1, upper);
      }
      CanonicalFromShape(t, s[0] == '-');
      assert [s[0]] + t == s;
    }
  }

  lemma CanonicalKeyOfShape(s: string)
    requires AllTokenChars(s) && CanonicalShape(s, true)
    ensures CanonicalKey(s) == s
  {
    CanonicalFromShape(s, true);
  }

  /** The names NewRequest sets are canonical already. */
  lemma AcceptCanonical() ensures CanonicalKey("Accept") == "Accept" {
    var s := "Accept";
    assert AllTokenChars(s) by {
      forall i | 0 <= i < |s| ensures IsTokenChar(s[i]) { }
    }
    assert CanonicalShape(s, true) by {
      forall i | 0 <= i < |s| ensures if UpperAt(s, i, true) then !('a' <= s[i] <= 'z') else !IsUpper(s[i]) { }
    }
    CanonicalKeyOfShape(s);
  }

  lemma UserAgentCanonical() ensures CanonicalKey("User-Agent") == "User-Agent" {
    var s := "User-Agent";
    assert AllTokenChars(s) by {
      forall i | 0 <= i < |s| ensures IsTokenChar(s[i]) { }
    }
    assert CanonicalShape(s, true) by {
      forall i | 0 <= i < |s| ensures if UpperAt(s, i, true) then !('a' <= s[i] <= 'z') else !IsUpper(s[i]) { }
    }
    CanonicalKeyOfShape(s);
  }

  lemma AuthorizationCanonical() ensures CanonicalKey("Authorization") == "Authorization" {
    var s := "Authorization";
    assert AllTokenChars(s) by {
      forall i | 0 <= i < |s| ensures IsTokenChar(s[i]) { assert 'a' <= s[i] <= 'z' || s[i] == 'A'; }
    }
    assert CanonicalShape(s, true) by {
      forall i | 0 <= i < |s| ensures if UpperAt(s, i, true) then !('a' <= s[i] <= 'z') else !IsUpper(s[i]) {
        assert i == 0 || s[i - 1] != '-';
      }
    }
    CanonicalKeyOfShape(s);
  }

  lemma ContentTypeCanonical() ensures CanonicalKey("Content-Type") == "Content-Type" {
    var s := "Content-Type";
    assert AllTokenChars(s) by {
      forall i | 0 <= i < |s| ensures IsTokenChar(s[i]) { }
    }
    assert CanonicalShape(s, true) by {
      forall i | 0 <= i < |s| ensures if UpperAt(s, i, true) then !('a' <= s[i] <= 'z') else !IsUpper(s[i]) { }
    }
    CanonicalKeyOfShape(s);
  }

  /** Lower-case spellings name the same entry: a "content-type" extra
      header lands among the Content-Type values. */
  lemma LowerCaseContentType()
    ensures CanonicalKey("content-type") == "Content-Type"
  {
    CanonicalizeTokens("content-type", "Content-Type");
  }

  lemma CanonicalizeTokens(s: string, t: string)
    requires AllTokenChars(s) && |s| == |t|
    requires forall i :: 0 <= i < |s| ==>
      t[i] == if UpperAt(s, i, true) then ToUpperChar(s[i]) else ToLowerChar(s[i])
    ensures CanonicalKey(s) == t
  {
    CanonicalFromAt(s, true);
  }

  /** Character i of the canonical form depends only on s[i] and on
      whether it starts a word. */
  lemma {:induction false} CanonicalFromAt(s: string, upper: bool)
    ensures forall i :: 0 <= i < |s| ==>
      CanonicalFrom(s, upper)[i] == if UpperAt(s, i, upper) then ToUpperChar(s[i]) else ToLowerChar(s[i])
    decreases |s|
  {
    if s != [] {
      var c := if upper then ToUpperChar(s[0]) else ToLowerChar(s[0]);
      CanonicalFromAt(s[1..], c == '-');
      var r := CanonicalFrom(s, upper);
      forall i | 0 <= i < |s|
        ensures r[i] == if UpperAt(s, i, upper) then ToUpperChar(s[i]) else ToLowerChar(s[i])
      {
        if i > 0 {
          assert r[i] == CanonicalFrom(s[1..], c == '-')[i - 1];
          assert s[1..][i - 1] == s[i];
          assert UpperAt(s[1..], i - 1, c == '-') == UpperAt(s, i, upper);
        }
      }
    }
  }
}
