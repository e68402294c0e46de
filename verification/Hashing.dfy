/** Digests and text cleaning shared by the Merkle tree and the hash chain. */
module Hashing {

  datatype Option<+T> = None | Some(value: T)

  datatype Result<+T, +E> = Ok(value: T) | Err(error: E)

  predicate IsHexDigit(c: char) {
    '0' <= c <= '9' || 'a' <= c <= 'f'
  }

  /** The shape of `hex.EncodeToString` of a SHA-256 sum. */
  predicate IsDigest(s: string) {
    |s| == 64 && forall i :: 0 <= i < |s| ==> IsHexDigit(s[i])
  }

  function Zeros(n: nat): (s: string)
    ensures |s| == n && forall i :: 0 <= i < n ==> s[i] == '0'
  {
    if n == 0 then "" else "0" + Zeros(n - 1)
  }

  const GENESIS: string := Zeros(64)

  /** Hex-encoded SHA-256, as a parameter. */
  type Sha = string -> string

  /** All that is assumed of it: every sum is a digest. Injectivity would be inconsistent, so soundness
      results name the colliding inputs instead. */
  ghost predicate IsSha(sha: Sha) {
    forall x :: IsDigest(sha(x))
  }

  lemma ShaIsDigest(sha: Sha, x: string)
    requires IsSha(sha)
    ensures IsDigest(sha(x))
  {
  }

  /** Two different inputs, one from each of two finite sets of inputs actually hashed, with one digest.
      (Some collision always exists; one among the inputs that were hashed is the event to exclude.) */
  ghost predicate Collision(sha: Sha, xs: set<string>, ys: set<string>) {
    exists x, y :: x in xs && y in ys && x != y && sha(x) == sha(y)
  }

  lemma CollisionGrows(sha: Sha, xs: set<string>, ys: set<string>, xs': set<string>, ys': set<string>)
    requires xs <= xs' && ys <= ys'
    ensures Collision(sha, xs, ys) ==> Collision(sha, xs', ys')
  {
  }

  // ---- strings.ToLower(strings.TrimSpace(s)) ----

  predicate IsSpace(c: char) {
    || '\t' <= c <= '\r' || c == ' ' || c == 0x85 as char || c == 0xA0 as char || c == 0x1680 as char
    || 0x2000 as char <= c <= 0x200A as char || c == 0x2028 as char || c == 0x2029 as char
    || c == 0x202F as char || c == 0x205F as char || c == 0x3000 as char
  }

  function ToLower(c: char): char {
    if 'A' <= c <= 'Z' then (c as int + 32) as char else c
  }

  function TrimLeft(s: string): string {
    if s != "" && IsSpace(s[0]) then TrimLeft(s[1..]) else s
  }

  function TrimRight(s: string): string {
    if s != "" && IsSpace(s[|s| - 1]) then TrimRight(s[..|s| - 1]) else s
  }

  /** strings.TrimSpace. */
  function Trim(s: string): string {
    TrimRight(TrimLeft(s))
  }

  lemma {:induction false} TrimKeepsInk(s: string)
    requires s != "" && !IsSpace(s[0])
    ensures TrimRight(s) != "" && Trim(s) == TrimRight(s)
  {
    if IsSpace(s[|s| - 1]) {
      TrimKeepsInk(s[..|s| - 1]);
    }
  }

  function Clean(s: string): string {
    var t := Trim(s);
    seq(|t|, i requires 0 <= i < |t| => ToLower(t[i]))
  }

  lemma DigestIsClean(s: string)
    requires IsDigest(s)
    ensures Clean(s) == s
  {
    assert IsHexDigit(s[0]) && IsHexDigit(s[63]);
    assert TrimRight(TrimLeft(s)) == s;
  }

  lemma {:induction false} TrimLeftShape(s: string)
    ensures var t := TrimLeft(s); t != "" ==> !IsSpace(t[0])
  {
    if s != "" && IsSpace(s[0]) {
      TrimLeftShape(s[1..]);
    }
  }

  lemma {:induction false} TrimRightShape(s: string)
    ensures var t := TrimRight(s); t != "" ==> !IsSpace(t[|t| - 1]) && s != "" && t[0] == s[0]
  {
    if s != "" && IsSpace(s[|s| - 1]) {
      TrimRightShape(s[..|s| - 1]);
    }
  }

  /** Cleaning twice changes nothing: stored leaves and submitted hashes meet in one normal form. */
  lemma CleanIdempotent(s: string)
    ensures Clean(Clean(s)) == Clean(s)
  {
    TrimLeftShape(s);
    TrimRightShape(TrimLeft(s));
    var c := Clean(s);
    assert TrimRight(TrimLeft(c)) == c;
    assert Clean(c) == c;
  }
}
