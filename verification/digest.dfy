/** Contract-set digests: newline normalisation and NUL framing (`l9_ci/governance/digest.py`). */
module ContractDigest {
  import opened Order
  import opened Wrappers
  import opened Utf8
  import Text

  // ---------------------------------------------------------------- newlines

  /** `text.replace("\r\n", "\n")`. */
  function ReplaceCrLf(s: string): string {
    if s == [] then []
    else if |s| > 1 && s[0] == '\r' && s[1] == '\n' then "\n" + ReplaceCrLf(s[2..])
    else [s[0]] + ReplaceCrLf(s[1..])
  }

  /** `text.replace("\r", "\n")`. */
  function ReplaceCr(s: string): string {
    if s == [] then [] else [if s[0] == '\r' then '\n' else s[0]] + ReplaceCr(s[1..])
  }

  function Newlines(s: string): string { ReplaceCr(ReplaceCrLf(s)) }

  /** A single scan: CRLF, then a lone CR, becomes LF. */
  function OnePass(s: string): string {
    if s == [] then []
    else if s[0] != '\r' then [s[0]] + OnePass(s[1..])
    else if |s| > 1 && s[1] == '\n' then "\n" + OnePass(s[2..])
    else "\n" + OnePass(s[1..])
  }

  lemma {:induction false} NewlinesIsOnePass(s: string)
    ensures Newlines(s) == OnePass(s)
    decreases |s|
  {
    if s != [] {
      var rest := if |s| > 1 && s[0] == '\r' && s[1] == '\n' then s[2..] else s[1..];
      NewlinesIsOnePass(rest);
      var r := ReplaceCrLf(s);
      assert r[1..] == ReplaceCrLf(rest);
    }
  }

  lemma {:induction false} NewlinesHaveNoCr(s: string)
    ensures '\r' !in OnePass(s)
    decreases |s|
  {
    if s != [] {
      NewlinesHaveNoCr(s[1..]);
      if |s| > 1 { NewlinesHaveNoCr(s[2..]); }
    }
  }

  lemma {:induction false} OnePassFixes(s: string)
    requires '\r' !in s
    ensures OnePass(s) == s
  {
    if s != [] {
      assert s[0] in s && forall c :: c in s[1..] ==> c in s;
      OnePassFixes(s[1..]);
    }
  }

  /** `normalize_contract_bytes`: text is normalised, undecodable bytes are kept. */
  function NormalizeBytes(b: Bytes): Bytes {
    match Decode(b)
    case None => b
    case Some(text) => Encode(Newlines(text))
  }

  /** Normalisation is idempotent on all bytes, and leaves no CR in text. */
  lemma NormalizeIdempotent(b: Bytes)
    ensures NormalizeBytes(NormalizeBytes(b)) == NormalizeBytes(b)
    ensures Decode(b).Some? ==>
            Decode(NormalizeBytes(b)) == Some(OnePass(Decode(b).value)) && '\r' !in OnePass(Decode(b).value)
  {
    if Decode(b).Some? {
      var text := Newlines(Decode(b).value);
      NewlinesIsOnePass(Decode(b).value);
      NewlinesHaveNoCr(Decode(b).value);
      DecodeEncode(text);
      OnePassFixes(text);
      NewlinesIsOnePass(text);
    }
  }

  // ------------------------------------------------------------- file hashes

  /** The path rule, which may reject, and the hex digest, both arbitrary. */
  datatype Env = Env(safePath: string -> Option<string>, sha: Bytes -> string)

  datatype File = File(path: string, content: Bytes)

  function HashOf(env: Env, f: File): string { "sha256:" + env.sha(NormalizeBytes(f.content)) }

  /** Some path is unsafe, or two files share a normalised path. */
  ghost predicate Rejected(env: Env, files: seq<File>) {
    || (exists f :: f in files && env.safePath(f.path).None?)
    || (exists i, j :: 0 <= i < j < |files| && env.safePath(files[i].path) == env.safePath(files[j].path))
  }

  predicate FiledUnder(env: Env, f: File, m: map<string, string>) {
    var path := env.safePath(f.path);
    path.Some? && path.value in m && m[path.value] == HashOf(env, f)
  }

  /** The map sends each file's normalised path to its hash and holds nothing else. */
  ghost predicate HashesAre(env: Env, files: seq<File>, m: map<string, string>) {
    && (forall f :: f in files ==> FiledUnder(env, f, m))
    && (forall p :: p in m ==> exists f :: f in files && env.safePath(f.path) == Some(p))
  }

  lemma HashesStep(env: Env, files: seq<File>, f: File, m: map<string, string>, path: string)
    requires HashesAre(env, files, m) && env.safePath(f.path) == Some(path) && path !in m
    ensures HashesAre(env, files + [f], m[path := HashOf(env, f)])
    ensures forall g :: g in files ==> env.safePath(g.path) != Some(path)
  {
    forall g | g in files ensures env.safePath(g.path) != Some(path) { assert FiledUnder(env, g, m); }
  }

  lemma RejectedStep(env: Env, files: seq<File>, i: nat, m: map<string, string>)
    requires i < |files| && HashesAre(env, files[..i], m) && !Rejected(env, files[..i])
    ensures var path := env.safePath(files[i].path);
            if path.None? || path.value in m then Rejected(env, files) else !Rejected(env, files[..i + 1])
  {
    var path := env.safePath(files[i].path);
    assert files[..i + 1] == files[..i] + [files[i]];
    if path.None? {
      assert files[i] in files;
    } else if path.value in m {
      var f :| f in files[..i] && env.safePath(f.path) == path;
    } else {
      forall f | f in files[..i] ensures env.safePath(f.path) != path { assert FiledUnder(env, f, m); }
    }
  }

  method ContractFileHashes(env: Env, files: seq<File>) returns (r: Outcome<map<string, string>>)
    ensures r.Raised? <==> Rejected(env, files)
    ensures r.Returned? ==> HashesAre(env, files, r.value)
  {
    var normalized: map<string, string> := map[];
    var originalPaths: map<string, string> := map[];
    for i := 0 to |files|
      invariant HashesAre(env, files[..i], normalized) && !Rejected(env, files[..i])
      invariant originalPaths.Keys == normalized.Keys
    {
      assert files[..i + 1] == files[..i] + [files[i]];
      var path := env.safePath(files[i].path);
      RejectedStep(env, files, i, normalized);
      if path.None? { return Raised; }
      if path.value in normalized { return Raised; }
      HashesStep(env, files[..i], files[i], normalized, path.value);
      originalPaths := originalPaths[path.value := files[i].path];
      normalized := normalized[path.value := HashOf(env, files[i])];
    }
    assert files[..|files|] == files;
    r := Returned(normalized);
  }

  /** Insertion order affects neither rejection nor the hashes. */
  lemma FileOrderIrrelevant(env: Env, a: seq<File>, b: seq<File>, m: map<string, string>, n: map<string, string>)
    requires multiset(a) == multiset(b) && HashesAre(env, a, m) && HashesAre(env, b, n)
    ensures m == n
  {
    forall f ensures f in a <==> f in b {
      assert f in a <==> f in multiset(a);
      assert f in b <==> f in multiset(b);
    }
    forall p | p in m ensures p in n && m[p] == n[p] {
      var f :| f in a && env.safePath(f.path) == Some(p);
      assert f in b;
    }
    forall p | p in n ensures p in m {
      var f :| f in b && env.safePath(f.path) == Some(p);
      assert f in a;
    }
    assert m.Keys == n.Keys;
  }

  // ----------------------------------------------------------------- framing

  const PROTOCOL := "l9.contract-set-digest/v1"

  predicate NulFree(s: string) { '\0' !in s }

  function Entry(m: map<string, string>): string -> string {
    p => if p in m then p + "\0" + m[p] + "\0" else ""
  }

  /** The text whose bytes are hashed. */
  function FrameText(m: map<string, string>): string { PROTOCOL + "\0" + FrameEntries(m) }

  function FrameEntries(m: map<string, string>): string { Collect(SortedSet(m.Keys), Entry(m)) }

  /** Extending by the four pieces extends by the entry's bytes. */
  lemma FrameStep(sofar: string, path: string, digest: string)
    ensures Encode(sofar + (path + "\0" + digest + "\0"))
         == Encode(sofar) + Encode(path) + Encode("\0") + Encode(digest) + Encode("\0")
  {
    EncodeAppend(sofar, path + "\0" + digest + "\0");
    EncodeEntry(path, "\0", digest);
    FivePieces(Encode(sofar), Encode(path), Encode("\0"), Encode(digest));
  }

  lemma EncodeEntry(path: string, nul: string, digest: string)
    ensures Encode(path + nul + digest + nul) == Encode(path) + Encode(nul) + Encode(digest) + Encode(nul)
  {
    EncodeAppend(path + nul + digest, nul);
    EncodeAppend(path + nul, digest);
    EncodeAppend(path, nul);
  }

  lemma FivePieces(sofar: Bytes, name: Bytes, nul: Bytes, value: Bytes)
    ensures sofar + (name + nul + value + nul) == sofar + name + nul + value + nul
  {}

  lemma Extending(start: Bytes, sofar: Bytes, name: Bytes, nul: Bytes, value: Bytes)
    ensures (start + sofar) + name + nul + value + nul == start + (sofar + name + nul + value + nul)
  {}

  /** Extends the bytearray entry by entry, four pieces each. */
  method ExtendEntries(start: Bytes, hashes: map<string, string>) returns (framed: Bytes)
    ensures framed == start + Encode(Collect(SortedSet(hashes.Keys), Entry(hashes)))
  {
    framed := start;
    var paths := SortedSet(hashes.Keys);
    for i := 0 to |paths|
      invariant framed == start + Encode(Collect(paths[..i], Entry(hashes)))
    {
      var path, digest := paths[i], hashes[paths[i]];
      CollectStep(paths, i, Entry(hashes));
      FrameStep(Collect(paths[..i], Entry(hashes)), path, digest);
      var name, nul, value := Encode(path), Encode("\0"), Encode(digest);
      Extending(start, Encode(Collect(paths[..i], Entry(hashes))), name, nul, value);
      framed := framed + name;
      framed := framed + nul;
      framed := framed + value;
      framed := framed + nul;
    }
    assert paths[..|paths|] == paths;
  }

  /** The bytes `contract_set_digest` hashes. */
  method Frame(hashes: map<string, string>) returns (framed: Bytes)
    ensures framed == Encode(FrameText(hashes))
  {
    framed := ExtendEntries(Encode(PROTOCOL + "\0"), hashes);
    EncodeAppend(PROTOCOL + "\0", Collect(SortedSet(hashes.Keys), Entry(hashes)));
  }

  lemma FirstNul(a: string, x: string)
    requires NulFree(a)
    ensures (a + "\0" + x)[|a|] == '\0' && forall i :: 0 <= i < |a| ==> (a + "\0" + x)[i] != '\0'
  {}

  /** A NUL ends the first part of a framed text in only one way. */
  lemma NulSplit(a: string, x: string, b: string, y: string)
    requires NulFree(a) && NulFree(b) && a + "\0" + x == b + "\0" + y
    ensures a == b && x == y
  {
    FirstNul(a, x);
    FirstNul(b, y);
    var s := a + "\0" + x;
    assert |a| == |b|;
    assert a == s[..|a|] && b == s[..|b|];
    assert x == s[|a| + 1..] && y == s[|b| + 1..];
  }

  ghost predicate Framable(m: map<string, string>) {
    forall p :: p in m ==> NulFree(p) && NulFree(m[p])
  }

  lemma {:induction false} EntriesDecide(m: map<string, string>, ps: seq<string>, n: map<string, string>,
                                         qs: seq<string>)
    requires Framable(m) && Framable(n)
    requires (forall p :: p in ps ==> p in m) && (forall q :: q in qs ==> q in n)
    requires Collect(ps, Entry(m)) == Collect(qs, Entry(n))
    ensures ps == qs && forall p :: p in ps ==> p in n && m[p] == n[p]
  {
    EntriesFront(m, ps);
    EntriesFront(n, qs);
    if ps != [] && qs != [] {
      var (p, q) := (ps[0], qs[0]);
      var (x, y) := (Collect(ps[1..], Entry(m)), Collect(qs[1..], Entry(n)));
      NulSplit(p, m[p] + "\0" + x, q, n[q] + "\0" + y);
      NulSplit(m[p], x, n[q], y);
      EntriesDecide(m, ps[1..], n, qs[1..]);
      assert ps == [p] + ps[1..] && qs == [q] + qs[1..];
    }
  }

  lemma EntriesFront(m: map<string, string>, ps: seq<string>)
    requires forall p :: p in ps ==> p in m
    ensures ps == [] <==> Collect(ps, Entry(m)) == []
    ensures ps != [] ==> Collect(ps, Entry(m)) == ps[0] + "\0" + (m[ps[0]] + "\0" + Collect(ps[1..], Entry(m)))
  {
    if ps != [] {
      var p, x := ps[0], Collect(ps[1..], Entry(m));
      assert Collect(ps, Entry(m)) == Entry(m)(p) + x;
      Regroup(p, "\0", m[p], x);
    }
  }

  lemma Regroup(path: string, nul: string, digest: string, x: string)
    ensures (path + nul + digest + nul) + x == path + nul + (digest + nul + x)
  {
  }

  /** The framing is uniquely decodable: equal bytes mean equal path-to-hash maps. */
  lemma FramingDecides(m: map<string, string>, n: map<string, string>)
    requires Framable(m) && Framable(n)
    ensures Encode(FrameText(m)) == Encode(FrameText(n)) <==> m == n
  {
    if Encode(FrameText(m)) == Encode(FrameText(n)) {
      EncodeInjective(FrameText(m), FrameText(n));
      Text.PrefixCancels(PROTOCOL + "\0", FrameEntries(m), FrameEntries(n));
      FrameEntriesDecide(m, n);
    }
  }

  lemma FrameEntriesDecide(m: map<string, string>, n: map<string, string>)
    requires Framable(m) && Framable(n) && FrameEntries(m) == FrameEntries(n)
    ensures m == n
  {
    var ps, qs := SortedSet(m.Keys), SortedSet(n.Keys);
    assert forall p :: (p in ps <==> p in m) && (p in qs <==> p in n);
    EntriesDecide(m, ps, n, qs);
    SameSorted(m.Keys, n.Keys);
    SameEntries(m, n, ps);
  }

  lemma SameEntries(m: map<string, string>, n: map<string, string>, ps: seq<string>)
    requires m.Keys == n.Keys && forall p :: p in m ==> p in ps
    requires forall p :: p in ps ==> p in n && p in m && m[p] == n[p]
    ensures m == n
  {
  }

  lemma SameSorted(s: set<string>, t: set<string>)
    requires SortedSet(s) == SortedSet(t)
    ensures s == t
  {
    forall x ensures x in s <==> x in t { assert x in s <==> x in SortedSet(s); }
  }

  /** `contract_set_digest` of accepted files. */
  function SetDigest(env: Env, m: map<string, string>): string { "sha256:" + env.sha(Encode(FrameText(m))) }

  /** Safe paths and hex digests hold no NUL, so accepted hashes are framable. */
  lemma HashesFramable(env: Env, files: seq<File>, m: map<string, string>)
    requires HashesAre(env, files, m)
    requires forall p :: env.safePath(p).Some? ==> NulFree(env.safePath(p).value)
    requires forall b :: NulFree(env.sha(b))
    ensures Framable(m)
  {
    forall p | p in m ensures NulFree(p) && NulFree(m[p]) {
      var f :| f in files && env.safePath(f.path) == Some(p);
      assert FiledUnder(env, f, m);
    }
  }

  /** Equal digests mean equal maps, when hashing separates the two framings. */
  lemma SetDigestDecidesMap(env: Env, m: map<string, string>, n: map<string, string>)
    requires Framable(m) && Framable(n) && Separates(env, Encode(FrameText(m)), Encode(FrameText(n)))
    ensures SetDigest(env, m) == SetDigest(env, n) <==> m == n
  {
    FramingDecides(m, n);
    if SetDigest(env, m) == SetDigest(env, n) {
      Text.PrefixCancels("sha256:", env.sha(Encode(FrameText(m))), env.sha(Encode(FrameText(n))));
    }
  }

  /** The digest maps these two byte strings together only when they are equal. */
  ghost predicate Separates(env: Env, b: Bytes, c: Bytes) { env.sha(b) == env.sha(c) ==> b == c }

  /** The normalised paths of a list of files with their normalised contents. */
  ghost function ContentsOf(env: Env, files: seq<File>): set<(string, Bytes)> {
    set f | f in files && env.safePath(f.path).Some? :: (env.safePath(f.path).value, NormalizeBytes(f.content))
  }

  ghost predicate SeparatesContents(env: Env, a: seq<File>, b: seq<File>) {
    forall f, g | f in a && g in b :: Separates(env, NormalizeBytes(f.content), NormalizeBytes(g.content))
  }

  lemma HashesWithin(env: Env, a: seq<File>, b: seq<File>, m: map<string, string>, n: map<string, string>)
    requires HashesAre(env, a, m) && HashesAre(env, b, n) && SeparatesContents(env, a, b) && m == n
    ensures ContentsOf(env, a) <= ContentsOf(env, b)
  {
    forall f | f in a && env.safePath(f.path).Some?
      ensures (env.safePath(f.path).value, NormalizeBytes(f.content)) in ContentsOf(env, b)
    {
      var p := env.safePath(f.path).value;
      assert FiledUnder(env, f, m);
      var g :| g in b && env.safePath(g.path) == Some(p);
      assert FiledUnder(env, g, n);
      Text.PrefixCancels("sha256:", env.sha(NormalizeBytes(f.content)), env.sha(NormalizeBytes(g.content)));
      assert Separates(env, NormalizeBytes(f.content), NormalizeBytes(g.content));
    }
  }

  lemma ContentsWithin(env: Env, a: seq<File>, b: seq<File>, m: map<string, string>, n: map<string, string>)
    requires HashesAre(env, a, m) && HashesAre(env, b, n) && ContentsOf(env, a) == ContentsOf(env, b)
    ensures forall p | p in m :: p in n && n[p] == m[p]
  {
    forall p | p in m ensures p in n && n[p] == m[p] {
      var f :| f in a && env.safePath(f.path) == Some(p);
      assert FiledUnder(env, f, m);
      assert (p, NormalizeBytes(f.content)) in ContentsOf(env, b);
      var g :| g in b && env.safePath(g.path) == Some(p) && NormalizeBytes(g.content) == NormalizeBytes(f.content);
      assert FiledUnder(env, g, n);
    }
  }

  lemma SeparatesContentsSymmetric(env: Env, a: seq<File>, b: seq<File>)
    requires SeparatesContents(env, a, b)
    ensures SeparatesContents(env, b, a)
  {
    forall g, f | g in b && f in a ensures Separates(env, NormalizeBytes(g.content), NormalizeBytes(f.content)) {
      assert Separates(env, NormalizeBytes(f.content), NormalizeBytes(g.content));
    }
  }

  /** The recorded hashes agree exactly when the files do, after normalising paths and newlines. */
  lemma HashesDecideContents(env: Env, a: seq<File>, b: seq<File>, m: map<string, string>, n: map<string, string>)
    requires HashesAre(env, a, m) && HashesAre(env, b, n) && SeparatesContents(env, a, b)
    ensures m == n <==> ContentsOf(env, a) == ContentsOf(env, b)
  {
    if m == n {
      HashesWithin(env, a, b, m, n);
      SeparatesContentsSymmetric(env, a, b);
      HashesWithin(env, b, a, n, m);
    }
    if ContentsOf(env, a) == ContentsOf(env, b) {
      ContentsWithin(env, a, b, m, n);
      ContentsWithin(env, b, a, n, m);
      assert m.Keys == n.Keys;
    }
  }

  /** Neither path rule nor digest produces a NUL, and the digest separates the inputs at hand. */
  ghost predicate Faithful(env: Env, a: seq<File>, b: seq<File>, m: map<string, string>, n: map<string, string>) {
    && (forall p :: env.safePath(p).Some? ==> NulFree(env.safePath(p).value))
    && (forall b :: NulFree(env.sha(b)))
    && SeparatesContents(env, a, b) && Separates(env, Encode(FrameText(m)), Encode(FrameText(n)))
  }

  /** `contract_set_digest`, from the files to the digest. */
  method ContractSetDigest(env: Env, files: seq<File>) returns (r: Outcome<string>)
    ensures r.Raised? <==> Rejected(env, files)
    ensures r.Returned? ==> exists m :: HashesAre(env, files, m) && r.value == SetDigest(env, m)
  {
    var hashes := ContractFileHashes(env, files);
    if hashes.Raised? { return Raised; }
    var framed := Frame(hashes.value);
    r := Returned("sha256:" + env.sha(framed));
  }

  /** Two accepted contract sets share a digest exactly when they hold the same normalised paths and contents. */
  lemma SetDigestDecides(env: Env, a: seq<File>, b: seq<File>, m: map<string, string>, n: map<string, string>)
    requires HashesAre(env, a, m) && HashesAre(env, b, n) && Faithful(env, a, b, m, n)
    ensures SetDigest(env, m) == SetDigest(env, n) <==> ContentsOf(env, a) == ContentsOf(env, b)
  {
    HashesFramable(env, a, m);
    HashesFramable(env, b, n);
    SetDigestDecidesMap(env, m, n);
    HashesDecideContents(env, a, b, m, n);
  }
}
