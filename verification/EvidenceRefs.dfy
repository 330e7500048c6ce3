/** The string codec of evidence references: `workspace:<id>:<path>#sha256:<digest>`. */
module EvidenceRefs {
  import opened Sequences

  const MARKER: string := "#sha256:"

  function Prefix(workspaceId: string): string {
    "workspace:" + workspaceId + ":"
  }

  function BuildRef(workspaceId: string, relative: string, digest: string): string {
    Prefix(workspaceId) + relative + MARKER + digest
  }

  /** 64 characters of a SHA-256 hex digest; all the codec needs is that none is the marker's '#'. */
  predicate IsDigest(d: string) {
    |d| == 64 && forall c :: c in d ==> c != '#'
  }

  predicate MarkerAt(text: string, i: nat) {
    i + |MARKER| <= |text| && text[i..i + |MARKER|] == MARKER
  }

  /** `str.rpartition` looks for the last occurrence. */
  function LastMarker(text: string, upTo: nat): (r: Option<nat>)
    ensures r.Some? ==> r.value <= upTo && MarkerAt(text, r.value)
    ensures r.Some? ==> forall i :: r.value < i <= upTo ==> !MarkerAt(text, i)
    ensures r.None? ==> forall i :: 0 <= i <= upTo ==> !MarkerAt(text, i)
  {
    if MarkerAt(text, upTo) then Some(upTo)
    else if upTo == 0 then None
    else LastMarker(text, upTo - 1)
  }

  datatype RefError = NotBound | NoSourceHash | Missing | HashChanged

  function ParseRef(workspaceId: string, ref: string): Result<(string, string), RefError> {
    var prefix := Prefix(workspaceId);
    if !(prefix <= ref) then Failure(NotBound)
    else
      var rest := ref[|prefix|..];
      var at := LastMarker(rest, |rest|);
      if at.None? || |rest| - at.value - |MARKER| != 64 then Failure(NoSourceHash)
      else Success((rest[..at.value], rest[at.value + |MARKER|..]))
  }

  lemma MarkerNeedsHash(text: string, i: nat)
    requires MarkerAt(text, i)
    ensures text[i] == '#'
  {
    assert text[i..i + |MARKER|][0] == '#';
  }

  /** Every path comes back, even one that contains the marker itself. */
  lemma RefRoundTrip(workspaceId: string, relative: string, digest: string)
    requires IsDigest(digest)
    ensures ParseRef(workspaceId, BuildRef(workspaceId, relative, digest)) == Success((relative, digest))
    ensures BuildRef(workspaceId, relative, digest) ==
            "workspace:" + workspaceId + ":" + relative + "#sha256:" + digest
  {
    var ref := BuildRef(workspaceId, relative, digest);
    var rest := relative + MARKER + digest;
    assert ref == Prefix(workspaceId) + rest && ref[|Prefix(workspaceId)|..] == rest;
    assert MarkerAt(rest, |relative|);
    forall i | |relative| < i <= |rest| ensures !MarkerAt(rest, i) {
      if |relative| + |MARKER| <= i < |rest| {
        assert rest[i] in digest;
      } else if i < |rest| {
        assert rest[i] == MARKER[i - |relative|];
      }
      if MarkerAt(rest, i) {
        MarkerNeedsHash(rest, i);
        assert false;
      }
    }
    assert LastMarker(rest, |rest|) == Some(|relative|);
    assert rest[..|relative|] == relative && rest[|relative| + |MARKER|..] == digest;
    assert Prefix(workspaceId) <= ref;
  }

  /** Only built references parse. */
  lemma ParsedRefWasBuilt(workspaceId: string, ref: string)
    requires ParseRef(workspaceId, ref).Success?
    ensures var (relative, digest) := ParseRef(workspaceId, ref).value;
            ref == "workspace:" + workspaceId + ":" + relative + "#sha256:" + digest && |digest| == 64
  {
    var rest := ref[|Prefix(workspaceId)|..];
    var at := LastMarker(rest, |rest|).value;
    assert rest == rest[..at] + MARKER + rest[at + |MARKER|..];
    assert ref == Prefix(workspaceId) + rest;
  }

  /** Regular files of the workspace by relative path. */
  type Files = map<string, string>

  /** `None` accepts the reference. */
  function ValidateRef(files: Files, workspaceId: string, ref: string, sha: string -> string): Option<RefError> {
    match ParseRef(workspaceId, ref)
    case Failure(e) => Some(e)
    case Success((relative, digest)) =>
      if relative !in files then Some(Missing)
      else if sha(files[relative]) != digest then Some(HashChanged)
      else None
  }

  /** A reference built from a file's bytes is accepted exactly while the file is there with that hash. */
  lemma BuiltRefAccepted(files: Files, workspaceId: string, relative: string, digest: string, sha: string -> string)
    requires IsDigest(digest)
    ensures ValidateRef(files, workspaceId, BuildRef(workspaceId, relative, digest), sha) == None
            <==> relative in files && sha(files[relative]) == digest
  {
    RefRoundTrip(workspaceId, relative, digest);
  }
}
