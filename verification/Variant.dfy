/** Variant strings such as `aws-k8s-1.24-nvidia`. */
module Variant {
  import opened Prelude

  datatype PartError = Missing(part: string) | Empty(part: string)

  datatype Variant = Variant(
    variant: string, platform: string, runtime: string, family: string,
    version: Option<string>, flavor: Option<string>)

  /** `str::split('-')`. */
  function Split(s: string): (r: seq<string>)
    ensures r != []
  {
    if s == "" then [""]
    else
      var rest := Split(s[1..]);
      if s[0] == '-' then [""] + rest else [[s[0]] + rest[0]] + rest[1..]
  }

  function Dash(a: string, b: string): string { a + "-" + b }

  lemma {:induction false} DashAssociative(a: string, b: string, c: string)
    ensures Dash(a, Dash(b, c)) == Dash(Dash(a, b), c)
  {}

  function Join(parts: seq<string>): string
    requires parts != []
  {
    if |parts| == 1 then parts[0] else Dash(parts[0], Join(parts[1..]))
  }

  lemma {:induction false} JoinDash(rest: seq<string>)
    requires rest != []
    ensures Join([""] + rest) == "-" + Join(rest)
  {
    assert ([""] + rest)[1..] == rest;
    assert "" + "-" == "-";
  }

  lemma {:induction false} JoinChar(c: char, rest: seq<string>)
    requires rest != []
    ensures Join([[c] + rest[0]] + rest[1..]) == [c] + Join(rest)
  {
    var parts := [[c] + rest[0]] + rest[1..];
    assert parts[1..] == rest[1..];
    if |rest| > 1 {
      assert ([c] + rest[0]) + "-" + Join(rest[1..]) == [c] + (rest[0] + "-" + Join(rest[1..]));
    }
  }

  lemma {:induction false} JoinSplit(s: string)
    ensures Join(Split(s)) == s
  {
    if s != "" {
      JoinSplit(s[1..]);
      if s[0] == '-' { JoinDash(Split(s[1..])); } else { JoinChar(s[0], Split(s[1..])); }
      assert [s[0]] + s[1..] == s;
    }
  }

  lemma {:induction false} PartsHaveNoDash(s: string, i: nat)
    requires i < |Split(s)|
    ensures '-' !in Split(s)[i]
  {
    if s != "" {
      var rest := Split(s[1..]);
      if s[0] == '-' {
        if i > 0 { PartsHaveNoDash(s[1..], i - 1); }
      } else {
        PartsHaveNoDash(s[1..], i);
      }
    }
  }

  /** `Variant::parse`: an iterator over the parts, consulted four times. */
  function Parse(s: string): Result<Variant, PartError> {
    var parts := Split(s);
    var platform := parts[0];
    if platform == "" then Err(Empty("platform"))
    else if |parts| < 2 then Err(Missing("runtime"))
    else if parts[1] == "" then Err(Empty("runtime"))
    else
      var version := if |parts| < 3 then None else Some(parts[2]);
      if version == Some("") then Err(Empty("variant_version"))
      else
        var flavor := if |parts| < 4 then None else Some(parts[3]);
        if flavor == Some("") then Err(Empty("variant_flavor"))
        else Ok(Variant(s, platform, parts[1], Dash(platform, parts[1]), version, flavor))
  }

  predicate NameLike(part: string) {
    part != "" && '-' !in part
  }

  /** The parts that parsing keeps, written back with dashes, are the string or a front part of it
      that ends at a dash; so a variant without a version is its own family. */
  lemma {:induction false} ParseRebuilds(s: string)
    requires Parse(s).Ok?
    ensures var v := Parse(s).value;
      && v.variant == s && NameLike(v.platform) && NameLike(v.runtime)
      && v.family == Dash(v.platform, v.runtime)
      && (v.flavor.Some? ==> v.version.Some? && NameLike(v.flavor.value))
      && (v.version.Some? ==> NameLike(v.version.value))
      && (v.version.None? ==> s == v.family)
      && (v.version.Some? && v.flavor.None? ==> s == Dash(v.family, v.version.value))
      && (v.flavor.Some? ==>
            var front := Dash(Dash(v.family, v.version.value), v.flavor.value);
            s == front || front + "-" <= s)
  {
    JoinSplit(s);
    var parts := Split(s);
    PartsHaveNoDash(s, 0);
    PartsHaveNoDash(s, 1);
    if |parts| > 2 { PartsHaveNoDash(s, 2); }
    if |parts| > 3 { PartsHaveNoDash(s, 3); }
    Regroup(parts);
  }

  lemma {:induction false} JoinFrom(parts: seq<string>, i: nat)
    requires i < |parts|
    ensures Join(parts[i..]) == if i == |parts| - 1 then parts[i] else Dash(parts[i], Join(parts[i + 1..]))
  {
    if i < |parts| - 1 { assert parts[i..][1..] == parts[i + 1..]; }
  }

  /** The same text with the dashes grouped from the left. */
  lemma {:induction false} Regroup(parts: seq<string>)
    requires |parts| >= 2
    ensures var family := Dash(parts[0], parts[1]);
      && (|parts| == 2 ==> Join(parts) == family)
      && (|parts| == 3 ==> Join(parts) == Dash(family, parts[2]))
      && (|parts| > 3 ==>
            var front := Dash(Dash(family, parts[2]), parts[3]);
            Join(parts) == if |parts| == 4 then front else Dash(front, Join(parts[4..])))
  {
    assert parts[0..] == parts;
    JoinFrom(parts, 0);
    JoinFrom(parts, 1);
    var family := Dash(parts[0], parts[1]);
    if |parts| > 2 {
      JoinFrom(parts, 2);
      DashAssociative(parts[0], parts[1], Join(parts[2..]));
      if |parts| > 3 {
        JoinFrom(parts, 3);
        DashAssociative(family, parts[2], Join(parts[3..]));
        if |parts| > 4 { DashAssociative(Dash(family, parts[2]), parts[3], Join(parts[4..])); }
      }
    }
  }

  lemma {:induction false} SplitName(s: string)
    requires '-' !in s
    ensures Split(s) == [s]
  {
    if s != "" {
      SplitName(s[1..]);
      assert [s[0]] + s[1..] == s;
    }
  }

  /** Splitting finds the name in front of the first dash. */
  lemma {:induction false} SplitDash(a: string, b: string)
    requires '-' !in a
    ensures Split(Dash(a, b)) == [a] + Split(b)
  {
    var s := Dash(a, b);
    if a == "" {
      assert s[1..] == b;
    } else {
      assert s[1..] == Dash(a[1..], b);
      SplitDash(a[1..], b);
      assert [a[0]] + a[1..] == a;
    }
  }

  // Which strings parse, and to what.

  lemma {:induction false} ParseTwo(platform: string, runtime: string)
    requires NameLike(platform) && NameLike(runtime)
    ensures var s := Dash(platform, runtime);
            Parse(s) == Ok(Variant(s, platform, runtime, Dash(platform, runtime), None, None))
  {
    SplitDash(platform, runtime);
    SplitName(runtime);
  }

  lemma {:induction false} ParseThree(platform: string, runtime: string, version: string)
    requires NameLike(platform) && NameLike(runtime) && NameLike(version)
    ensures var s := Dash(Dash(platform, runtime), version);
            Parse(s) == Ok(Variant(s, platform, runtime, Dash(platform, runtime), Some(version), None))
  {
    DashAssociative(platform, runtime, version);
    SplitDash(platform, Dash(runtime, version));
    SplitDash(runtime, version);
    SplitName(version);
    assert [platform] + ([runtime] + [version]) == [platform, runtime, version];
  }

  /** The text after the flavor, if there is any. */
  function WithTail(s: string, tail: Option<string>): string {
    if tail.Some? then Dash(s, tail.value) else s
  }

  lemma {:induction false} ParseFour(platform: string, runtime: string, version: string, flavor: string, tail: Option<string>)
    requires NameLike(platform) && NameLike(runtime) && NameLike(version) && NameLike(flavor)
    ensures var s := WithTail(Dash(Dash(Dash(platform, runtime), version), flavor), tail);
            Parse(s) == Ok(Variant(s, platform, runtime, Dash(platform, runtime), Some(version), Some(flavor)))
  {
    var last := WithTail(flavor, tail);
    var s := WithTail(Dash(Dash(Dash(platform, runtime), version), flavor), tail);
    if tail.Some? { DashAssociative(Dash(Dash(platform, runtime), version), flavor, tail.value); }
    assert s == Dash(Dash(Dash(platform, runtime), version), last);
    DashAssociative(Dash(platform, runtime), version, last);
    DashAssociative(platform, runtime, Dash(version, last));
    SplitDash(platform, Dash(runtime, Dash(version, last)));
    SplitDash(runtime, Dash(version, last));
    SplitDash(version, last);
    if tail.Some? { SplitDash(flavor, tail.value); } else { SplitName(flavor); }
    assert Split(s)[..4] == [platform, runtime, version, flavor];
  }

  /** Nothing else parses: a string does exactly if it has at least two parts and none of its first four
      is empty. */
  lemma {:induction false} ParseIff(s: string)
    ensures Parse(s).Ok? <==>
      |Split(s)| >= 2 && forall i :: 0 <= i < |Split(s)| && i < 4 ==> Split(s)[i] != ""
  {
    var parts := Split(s);
    if Parse(s).Ok? {
      forall i | 0 <= i < |parts| && i < 4 ensures parts[i] != "" {
        assert i == 0 || i == 1 || i == 2 || i == 3;
      }
    }
  }
}
