/** Domain names as the resolver compares them (`normalize_name`, src/dns/dns_codec.cpp). */
module Names {

  function Lower(c: char): char {
    if 'A' <= c <= 'Z' then (c as int + 32) as char else c
  }

  function LowerAll(s: string): (r: string)
    ensures |r| == |s|
    ensures forall i :: 0 <= i < |s| ==> r[i] == Lower(s[i])
  {
    seq(|s|, i requires 0 <= i < |s| => Lower(s[i]))
  }

  function StripDots(name: string): (r: string) {
    if name != [] && name[|name| - 1] == '.' then StripDots(name[..|name| - 1]) else name
  }

  function Normalize(name: string): (r: string) {
    LowerAll(StripDots(name))
  }

  lemma {:induction false} LowerTwice(s: string)
    ensures LowerAll(LowerAll(s)) == LowerAll(s)
  {
  }

  lemma {:induction false} StripsDots(name: string)
    ensures var s := StripDots(name); s == [] || s[|s| - 1] != '.'
  {
    if name != [] && name[|name| - 1] == '.' {
      StripsDots(name[..|name| - 1]);
    }
  }

  /** Normalizing a normalized name changes nothing. */
  lemma NormalizedTwice(name: string)
    ensures Normalize(Normalize(name)) == Normalize(name)
  {
    StripsDots(name);
    var n := Normalize(name);
    assert n == [] || n[|n| - 1] != '.';
    LowerTwice(StripDots(name));
  }

  /** `s` without the dots at its end, with A to Z (65 to 90) replaced by a to z (97 to 122) and all else as it is. */
  ghost predicate IsNormalForm(s: string, r: string) {
    && |r| <= |s| && (r == [] || s[|r| - 1] != '.') && (forall i :: |r| <= i < |s| ==> s[i] == '.')
    && forall i :: 0 <= i < |r| ==> r[i] as int == s[i] as int + if 65 <= s[i] as int <= 90 then 32 else 0
  }

  lemma {:induction false} StripsOnlyDots(name: string)
    ensures var s := StripDots(name); s <= name && forall i :: |s| <= i < |name| ==> name[i] == '.'
  {
    if name != [] && name[|name| - 1] == '.' {
      StripsOnlyDots(name[..|name| - 1]);
    }
  }

  /** Normalization takes off all dots at the end, and puts ASCII letters into lower case; nothing else is a normal form. */
  lemma NormalFormIsUnique(name: string, r: string)
    ensures IsNormalForm(name, r) <==> r == Normalize(name)
  {
    var s := StripDots(name);
    StripsDots(name);
    StripsOnlyDots(name);
    assert IsNormalForm(name, Normalize(name));
    if IsNormalForm(name, r) {
      assert |r| == |s|;
      assert forall i :: 0 <= i < |r| ==> r[i] as int == Normalize(name)[i] as int;
    }
  }

  method NormalizeName(name: string) returns (r: string)
    ensures r == Normalize(name)
  {
    var n := |name|;
    assert name[..n] == name;
    while n > 0 && name[n - 1] == '.'
      invariant 0 <= n <= |name| && StripDots(name) == StripDots(name[..n])
    {
      assert name[..n][..n - 1] == name[..n - 1];
      n := n - 1;
    }
    r := [];
    for i := 0 to n
      invariant |r| == i && forall k :: 0 <= k < i ==> r[k] == Lower(name[k])
    {
      r := r + [Lower(name[i])];
    }
  }
}
