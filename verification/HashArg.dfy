/** The fingerprint-hash argument both shims read after `-E`. */
module HashArg {
  import opened Wrappers

  datatype HashAlg = Sha256 | Sha512

  function LowerChar(c: char): char {
    if 'A' <= c <= 'Z' then (c as int + 32) as char else c
  }

  /** ASCII lower-casing; other characters are untouched. */
  function Lower(s: string): (t: string)
    ensures |t| == |s|
  {
    seq(|s|, i requires 0 <= i < |s| => LowerChar(s[i]))
  }

  function HashName(h: HashAlg): string {
    match h
    case Sha256 => "sha256"
    case Sha512 => "sha512"
  }

  function ParseHash(s: string): Option<HashAlg> {
    if Lower(s) == "sha256" then Some(Sha256)
    else if Lower(s) == "sha512" then Some(Sha512)
    else None
  }

  /** One of the two hash names, each letter in either case. */
  predicate Spells(s: string, name: string) {
    && |s| == |name|
    && forall i :: 0 <= i < |s| ==> s[i] == name[i] || ('a' <= name[i] <= 'z' && s[i] as int + 32 == name[i] as int)
  }

  /** The argument is read as a hash exactly when it spells that hash's name. */
  lemma ParseHashIff(s: string, h: HashAlg)
    ensures ParseHash(s) == Some(h) <==> Spells(s, HashName(h))
  {
    LowerIff(s, "sha256");
    LowerIff(s, "sha512");
    assert "sha256"[3] != "sha512"[3];
  }

  lemma LowerIff(s: string, name: string)
    requires forall i :: 0 <= i < |name| ==> LowerChar(name[i]) == name[i]
    ensures Lower(s) == name <==> Spells(s, name)
  {
    if Spells(s, name) {
      assert forall i :: 0 <= i < |s| ==> Lower(s)[i] == name[i];
    }
    if Lower(s) == name {
      forall i | 0 <= i < |s| ensures LowerChar(s[i]) == name[i] {
        assert Lower(s)[i] == name[i];
      }
    }
  }

  lemma ParseHashName(h: HashAlg)
    ensures ParseHash(HashName(h)) == Some(h)
  {
    assert Lower("sha256") == "sha256";
    assert Lower("sha512") == "sha512";
    assert "sha256"[3] != "sha512"[3];
  }
}
