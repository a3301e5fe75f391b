/** The pure name checks of model_puller.py: leaf names, relative paths, digests. */
module BlobNames {
  import opened Prelude
  import Text

  type Path = seq<string>

  /** _safe_leaf_name on POSIX: the stripped name, when it is one plain path component. */
  function SafeLeafName(value: string): Option<string> {
    var name := Text.Trim(Text.PySpace, value);
    if name == "" || name == "." || name == ".." || '/' in name || '\\' in name then None else Some(name)
  }

  /** The components of a relative POSIX path; "" and "." components vanish, as in pathlib. */
  function Components(rel: string, current: string): Path
    decreases |rel|
  {
    if rel == "" then Keep(current)
    else if rel[0] == '/' then Keep(current) + Components(rel[1..], "")
    else Components(rel[1..], current + [rel[0]])
  }

  function Keep(component: string): Path {
    if component == "" || component == "." then [] else [component]
  }

  /** _safe_join: None is the "Unsafe" error, Some the components below the root. */
  function SafeJoin(rel: string): Option<Path> {
    if rel != "" && rel[0] == '/' then None
    else if ".." in Components(rel, "") then None
    else Some(Components(rel, ""))
  }

  predicate LowerHex(c: char) {
    '0' <= c <= '9' || 'a' <= c <= 'f'
  }

  predicate HexDigest(s: string) {
    |s| == 64 && forall i :: 0 <= i < |s| ==> LowerHex(s[i])
  }

  function LowerChar(c: char): char {
    if 'A' <= c <= 'Z' then (c as int + 32) as char else c
  }

  function Lower(s: string): string {
    seq(|s|, i requires 0 <= i < |s| => LowerChar(s[i]))
  }

  /** _expected_sha256: the digest a blob name promises, if it promises one. */
  function ExpectedSha256(name: string): Option<string> {
    var h := Lower(name);
    if HexDigest(h) then Some(h)
    else if "sha256-" <= h && HexDigest(h[7..]) then Some(h[7..])
    else None
  }

  /** The name of the partial file that belongs to a blob. */
  function PartName(name: string): string {
    name + ".part"
  }

  predicate IsPart(name: string) {
    |name| >= 5 && name[|name| - 5..] == ".part"
  }

  /** A partial file never has the name of a digest-checked blob, whatever blob it belongs to. */
  lemma PartIsNeverDigest(name: string)
    ensures IsPart(name) ==> ExpectedSha256(name).None?
    ensures IsPart(PartName(name))
    ensures ExpectedSha256(PartName(name)).None?
  {
    forall s: string | IsPart(s)
      ensures ExpectedSha256(s).None?
    {
      var h := Lower(s);
      assert s[|s| - 1] == s[|s| - 5..][4] == 't';
      assert h[|h| - 1] == 't';
      assert !LowerHex(h[|h| - 1]);
      assert |h| > 7 ==> h[7..][|h| - 8] == h[|h| - 1];
    }
    assert PartName(name)[|PartName(name)| - 5..] == ".part";
  }

  /** Partial files of different blobs are different files. */
  lemma PartInjective(a: string, b: string)
    requires PartName(a) == PartName(b)
    ensures a == b
  {
    assert PartName(a)[..|PartName(a)| - 5] == a;
    assert PartName(b)[..|PartName(b)| - 5] == b;
  }

  /** Every component that _safe_join lets through is a real name: it cannot climb and cannot hide a separator. */
  lemma SafeJoinStaysBelow(rel: string)
    ensures SafeJoin(rel).Some? ==>
              forall c :: c in SafeJoin(rel).value ==> c != "" && c != "." && c != ".." && '/' !in c
  {
    ComponentsArePlain(rel, "");
  }

  /** A leaf name is safe exactly when it names one file directly below whatever directory it is joined to. */
  lemma LeafIsOneComponent(value: string)
    ensures var name := Text.Trim(Text.PySpace, value);
            && (SafeLeafName(value).Some? <==> SafeJoin(name) == Some([name]) && '\\' !in name)
            && (SafeLeafName(value).Some? ==> SafeLeafName(value).value == name)
  {
    var name := Text.Trim(Text.PySpace, value);
    if '/' in name {
      ComponentsArePlain(name, "");
      assert name !in Components(name, "") && name in [name];
    } else {
      OneComponent(name, "");
      assert "" + name == name;
      assert ".." in [name] <==> name == "..";
    }
  }

  lemma {:induction false} OneComponent(rel: string, current: string)
    requires '/' !in rel
    ensures Components(rel, current) == Keep(current + rel)
    decreases |rel|
  {
    if rel == "" {
      assert current + rel == current;
    } else {
      OneComponent(rel[1..], current + [rel[0]]);
      assert current + [rel[0]] + rel[1..] == current + rel;
    }
  }

  /** A name promises a digest exactly when, in lower case, it is that digest, bare or after "sha256-". */
  lemma ExpectedShaMeaning(name: string, digest: string)
    ensures ExpectedSha256(name) == Some(digest) <==>
            HexDigest(digest) && (Lower(name) == digest || Lower(name) == "sha256-" + digest)
  {
    var h := Lower(name);
    if HexDigest(digest) && h == "sha256-" + digest {
      assert h[7..] == digest;
    }
    if "sha256-" <= h {
      assert h == "sha256-" + h[7..];
    }
  }

  lemma {:induction false} ComponentsArePlain(rel: string, current: string)
    requires '/' !in current
    ensures forall c :: c in Components(rel, current) ==> c != "" && c != "." && '/' !in c
    decreases |rel|
  {
    if rel == "" {
    } else if rel[0] == '/' {
      ComponentsArePlain(rel[1..], "");
    } else {
      ComponentsArePlain(rel[1..], current + [rel[0]]);
    }
  }

  predicate Plain(c: string) {
    c != "" && c != "." && c != ".." && '/' !in c
  }

  function Slashed(components: Path): string {
    if components == [] then ""
    else if |components| == 1 then components[0]
    else components[0] + "/" + Slashed(components[1..])
  }

  lemma {:induction false} FirstComponent(c: string, rest: string, current: string)
    requires '/' !in c
    ensures Components(c + "/" + rest, current) == Keep(current + c) + Components(rest, "")
    decreases |c|
  {
    if c == "" {
      assert "" + "/" + rest == "/" + rest && ("/" + rest)[1..] == rest;
      assert current + "" == current;
    } else {
      FirstComponent(c[1..], rest, current + [c[0]]);
      assert (c + "/" + rest)[1..] == c[1..] + "/" + rest;
      assert current + [c[0]] + c[1..] == current + c;
    }
  }

  /** A path of plain names is let through as it is, whatever its depth. */
  lemma {:induction false} PlainPathPasses(components: Path)
    requires components != [] && forall c :: c in components ==> Plain(c)
    ensures Components(Slashed(components), "") == components && SafeJoin(Slashed(components)) == Some(components)
    decreases |components|
  {
    var c := components[0];
    assert Plain(c) && "" + c == c;
    if |components| == 1 {
      OneComponent(c, "");
    } else {
      PlainPathPasses(components[1..]);
      FirstComponent(c, Slashed(components[1..]), "");
      assert components == [c] + components[1..];
      assert Slashed(components)[0] == c[0];
    }
    assert Slashed(components)[0] == c[0] && c[0] in c;
  }

  /** Digests in upper or mixed case are recognised, and the promise is the digest in lower case. */
  lemma AnyCaseIsRecognised(name: string)
    requires |name| == 64 && forall i :: 0 <= i < 64 ==> '0' <= name[i] <= '9' || 'a' <= name[i] <= 'f' || 'A' <= name[i] <= 'F'
    ensures ExpectedSha256(name).Some? && |ExpectedSha256(name).value| == 64
    ensures forall i :: 0 <= i < 64 ==> LowerHex(ExpectedSha256(name).value[i])
    ensures forall i :: 0 <= i < 64 ==>
              var d := ExpectedSha256(name).value[i];
              d == name[i] || ('A' <= name[i] <= 'F' && d as int == name[i] as int - 'A' as int + 'a' as int)
  {
    assert HexDigest(Lower(name));
  }
}
