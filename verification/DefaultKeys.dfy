/** The identities used when a command names no key file. */
module DefaultKeys {
  import opened Wrappers

  datatype PathError = NoHome | NoKeyFound

  const CANDIDATES: seq<string> := ["id_ed25519", "id_ecdsa", "id_rsa"]

  /** The standard identities in ssh-add's order. */
  function Candidate(home: string, k: nat): string
    requires k < |CANDIDATES|
  {
    home + "/.ssh/" + CANDIDATES[k]
  }

  /** x stands in a sequence before y. */
  ghost predicate Before(paths: seq<string>, x: string, y: string) {
    exists a, b :: 0 <= a < b < |paths| && paths[a] == x && paths[b] == y
  }

  ghost predicate InOrder(found: seq<string>, paths: seq<string>) {
    forall i, j :: 0 <= i < j < |found| ==> Before(paths, found[i], found[j])
  }

  function Existing(paths: seq<string>, files: set<string>): (r: seq<string>)
    ensures forall p :: p in r <==> p in paths && p in files
    ensures InOrder(r, paths)
  {
    if paths == [] then []
    else
      var rest := Existing(paths[1..], files);
      assert forall k :: 0 <= k < |paths| - 1 ==> paths[1..][k] == paths[k + 1];
      if paths[0] in files then
        KeepsOrder(rest, paths);
        [paths[0]] + rest
      else
        SkipsOrder(rest, paths);
        rest
  }

  lemma SkipsOrder(rest: seq<string>, paths: seq<string>)
    requires paths != [] && InOrder(rest, paths[1..])
    ensures InOrder(rest, paths)
  {
    forall i, j | 0 <= i < j < |rest| ensures Before(paths, rest[i], rest[j]) {
      assert Before(paths[1..], rest[i], rest[j]);
      var a, b :| 0 <= a < b < |paths[1..]| && paths[1..][a] == rest[i] && paths[1..][b] == rest[j];
      assert paths[a + 1] == rest[i] && paths[b + 1] == rest[j];
    }
  }

  lemma KeepsOrder(rest: seq<string>, paths: seq<string>)
    requires paths != [] && InOrder(rest, paths[1..])
    requires forall p :: p in rest ==> p in paths[1..]
    ensures InOrder([paths[0]] + rest, paths)
  {
    SkipsOrder(rest, paths);
    var all := [paths[0]] + rest;
    forall i, j | 0 <= i < j < |all| ensures Before(paths, all[i], all[j]) {
      assert all[j] == rest[j - 1] && rest[j - 1] in paths[1..];
      var b :| 0 <= b < |paths[1..]| && paths[1..][b] == all[j];
      assert paths[b + 1] == all[j];
      if i > 0 {
        assert Before(paths, rest[i - 1], rest[j - 1]);
      }
    }
  }

  function Candidates(home: string): seq<string> {
    seq(|CANDIDATES|, k requires 0 <= k < |CANDIDATES| => Candidate(home, k))
  }

  /** Exactly the standard identities that exist under `~/.ssh`, in ssh-add's order. Never none:
      without any the answer is "no key found", and without a home directory there is no answer. */
  function DefaultKeyPaths(home: Option<string>, files: set<string>): (r: Result<seq<string>, PathError>)
    ensures r.Err? && r.error.NoHome? <==> home.None?
    ensures r.Err? && r.error.NoKeyFound? <==>
              home.Some? && forall k :: 0 <= k < |CANDIDATES| ==> Candidate(home.value, k) !in files
    ensures r.Ok? ==> home.Some? && r.value != [] && InOrder(r.value, Candidates(home.value))
    ensures r.Ok? ==>
              forall p :: p in r.value <==>
                p in files && exists k :: 0 <= k < |CANDIDATES| && p == Candidate(home.value, k)
  {
    if home.None? then Err(NoHome)
    else
      var all := Candidates(home.value);
      assert forall k :: 0 <= k < |CANDIDATES| ==> all[k] == Candidate(home.value, k) && all[k] in all;
      var found := Existing(all, files);
      if found == [] then
        assert forall k :: 0 <= k < |CANDIDATES| ==> all[k] !in found;
        Err(NoKeyFound)
      else
        assert found[0] in found;
        Ok(found)
  }

  /** With all three present they come in the order ed25519, ecdsa, rsa; and a later one comes first
      only where those before it are missing. */
  lemma DefaultOrder(home: string, files: set<string>)
    ensures var a, b, c := home + "/.ssh/id_ed25519", home + "/.ssh/id_ecdsa", home + "/.ssh/id_rsa";
            DefaultKeyPaths(Some(home), files) ==
            var found := (if a in files then [a] else []) + (if b in files then [b] else []) +
                         (if c in files then [c] else []);
            if found == [] then Err(NoKeyFound) else Ok(found)
  {
    var a, b, c := home + "/.ssh/id_ed25519", home + "/.ssh/id_ecdsa", home + "/.ssh/id_rsa";
    assert Candidate(home, 0) == a && Candidate(home, 1) == b && Candidate(home, 2) == c;
    assert |CANDIDATES| == 3 && Candidates(home) == [a, b, c];
    ExistingOfThree(a, b, c, files);
  }

  lemma ExistingOfThree(a: string, b: string, c: string, files: set<string>)
    ensures Existing([a, b, c], files) ==
            (if a in files then [a] else []) + (if b in files then [b] else []) + (if c in files then [c] else [])
  {
    assert [a, b, c][1..] == [b, c] && [b, c][1..] == [c] && [c][1..] == [];
    assert Existing([c], files) == if c in files then [c] else [];
    assert Existing([b, c], files) == (if b in files then [b] else []) + (if c in files then [c] else []);
  }
}
