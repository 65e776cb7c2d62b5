/**
  The string work of the maven.org source loader: the hexadecimal SHA-1 string
  it searches by, the `+`/`-` package filters that decide which classes it
  looks up, the split of a `groupId:artifactId:version` id, the path of the
  source jar, the name of the `.java` entry for a `.class` entry, and the
  per-entry cache of downloaded jars. Digesting, the search request, XML and zip
  reading and temporary files are not modelled; their outcome is a parameter.
*/
module MavenSourceLoader {
  import opened Wrappers
  import opened JavaStrings

  // -- hexa and the digest string ------------------------------------------- //

  type Nibble = i: int | 0 <= i < 16

  /** A Java `byte`. */
  type JavaByte = b: int | -128 <= b < 128

  predicate IsLowerHexDigit(c: char) {
    '0' <= c <= '9' || 'a' <= c <= 'f'
  }

  /** `hexa`: 0-9 to '0'-'9', 10-15 to 'a'-'f'. */
  function Hexa(i: Nibble): (c: char)
    ensures IsLowerHexDigit(c)
    ensures i <= 9 <==> '0' <= c <= '9'
  {
    if i <= 9 then ('0' as int + i) as char else ('a' as int - 10 + i) as char
  }

  /** The value of a lower-case hexadecimal digit. */
  function HexValue(c: char): Nibble
    requires IsLowerHexDigit(c)
  {
    if '0' <= c <= '9' then c as int - '0' as int else c as int - 'a' as int + 10
  }

  /** `hexa` is one-to-one: the digit gives its value back. */
  lemma HexaRoundTrip(i: Nibble)
    ensures HexValue(Hexa(i)) == i
  {
  }

  /** `(b & 255) >> 4` and `b & 15`: the byte's unsigned high and low nibbles. */
  function HighNibble(b: JavaByte): Nibble {
    (b % 256) / 16
  }

  function LowNibble(b: JavaByte): Nibble {
    b % 16
  }

  /** The digest as text: two digits per byte, high nibble first. */
  function HexString(digest: seq<JavaByte>): (s: string)
    ensures |s| == 2 * |digest|
  {
    if |digest| == 0 then []
    else HexString(digest[..|digest| - 1]) + [Hexa(HighNibble(digest[|digest| - 1])), Hexa(LowNibble(digest[|digest| - 1]))]
  }

  /** Text made of pairs of lower-case hexadecimal digits. */
  predicate IsHexText(s: string) {
    |s| % 2 == 0 && forall k :: 0 <= k < |s| ==> IsLowerHexDigit(s[k])
  }

  /** The text back to bytes (as Java bytes). */
  function UnHex(s: string): (digest: seq<JavaByte>)
    requires IsHexText(s)
  {
    if |s| == 0 then []
    else
      var v := 16 * HexValue(s[|s| - 2]) + HexValue(s[|s| - 1]);
      UnHex(s[..|s| - 2]) + [if v < 128 then v else v - 256]
  }

  /** The two digits of a byte give the byte back. */
  lemma ByteRoundTrip(b: JavaByte)
    ensures var v := 16 * HighNibble(b) + LowNibble(b);
            (if v < 128 then v else v - 256) == b
  {
    var u := if b >= 0 then b else b + 256;
    assert b % 256 == u;
    assert u % 16 == b % 16;
  }

  /** Every character of the digest string is a lower-case hexadecimal digit. */
  lemma {:induction false} HexStringDigits(digest: seq<JavaByte>)
    ensures IsHexText(HexString(digest))
  {
    if |digest| > 0 {
      HexStringDigits(digest[..|digest| - 1]);
    }
  }

  /** The digest string gives the digest back: nothing is lost. */
  lemma {:induction false} HexStringRoundTrip(digest: seq<JavaByte>)
    ensures IsHexText(HexString(digest)) && UnHex(HexString(digest)) == digest
  {
    HexStringDigits(digest);
    if |digest| > 0 {
      var init := digest[..|digest| - 1];
      var b := digest[|digest| - 1];
      HexStringRoundTrip(init);
      var h := HexString(init);
      var hi, lo := Hexa(HighNibble(b)), Hexa(LowNibble(b));
      assert HexString(digest) == h + [hi, lo];
      UnHexAppend(h, hi, lo);
      PairDecodes(b);
      SplitLast(digest);
    }
  }

  /** The two digits written for a byte decode to that byte. */
  lemma PairDecodes(b: JavaByte)
    ensures var v := 16 * HexValue(Hexa(HighNibble(b))) + HexValue(Hexa(LowNibble(b)));
            (if v < 128 then v else v - 256) == b
  {
    HexaRoundTrip(HighNibble(b));
    HexaRoundTrip(LowNibble(b));
    ByteRoundTrip(b);
  }

  lemma SplitLast(digest: seq<JavaByte>)
    requires |digest| > 0
    ensures digest[..|digest| - 1] + [digest[|digest| - 1]] == digest
  {
  }

  /** Two more digits add one byte at the end. */
  lemma UnHexAppend(h: string, hi: char, lo: char)
    requires IsHexText(h) && IsLowerHexDigit(hi) && IsLowerHexDigit(lo)
    ensures var s := h + [hi, lo];
            && IsHexText(s)
            && var v := 16 * HexValue(hi) + HexValue(lo);
               UnHex(s) == UnHex(h) + [if v < 128 then v else v - 256]
  {
    var s := h + [hi, lo];
    assert s[..|s| - 2] == h;
  }

  /** The loop that builds the digest string in `downloadSourceJarFile`. */
  method DigestToHex(digest: seq<JavaByte>) returns (s: string)
    ensures s == HexString(digest)
  {
    s := "";
    for k := 0 to |digest|
      invariant s == HexString(digest[..k])
    {
      var b := digest[k];
      s := s + [Hexa(HighNibble(b)), Hexa(LowNibble(b))];
      assert digest[..k + 1][..k] == digest[..k];
    }
    assert digest[..|digest|] == digest;
  }

  // -- accepted ------------------------------------------------------------------ //

  /** `StringTokenizer`'s default delimiters. */
  predicate IsDelimiter(c: char) {
    c == ' ' || c == '\t' || c == '\n' || c == '\r' || c == '\U{000C}'
  }

  /** `s` holds no delimiter. */
  predicate NoDelimiter(s: string) {
    forall k :: 0 <= k < |s| ==> !IsDelimiter(s[k])
  }

  /** The tokens of `s`: its maximal runs of non-delimiters, in order, with
      `current` the run read so far. */
  function TokensFrom(s: string, current: string): (r: seq<string>)
    requires NoDelimiter(current)
    ensures forall t :: 0 <= t < |r| ==> |r[t]| > 0 && NoDelimiter(r[t])
    decreases |s|
  {
    if |s| == 0 then (if current == "" then [] else [current])
    else if IsDelimiter(s[0]) then
      (if current == "" then [] else [current]) + TokensFrom(s[1..], "")
    else TokensFrom(s[1..], current + [s[0]])
  }

  /** `new StringTokenizer(s)`, read to the end. */
  function Tokens(s: string): (r: seq<string>)
    ensures forall t :: 0 <= t < |r| ==> |r[t]| > 0 && NoDelimiter(r[t])
  {
    TokensFrom(s, "")
  }

  /** The characters of `s` that are not delimiters, in order. */
  function WithoutDelimiters(s: string): (r: string)
    ensures NoDelimiter(r)
  {
    if |s| == 0 then "" else (if IsDelimiter(s[0]) then "" else [s[0]]) + WithoutDelimiters(s[1..])
  }

  /** The tokens written one after the other. */
  function Flatten(tokens: seq<string>): string {
    if |tokens| == 0 then "" else tokens[0] + Flatten(tokens[1..])
  }

  lemma {:induction false} FlattenAppend(a: seq<string>, b: seq<string>)
    ensures Flatten(a + b) == Flatten(a) + Flatten(b)
    decreases |a|
  {
    if |a| > 0 {
      assert (a + b)[1..] == a[1..] + b;
      FlattenAppend(a[1..], b);
    } else {
      assert a + b == b;
    }
  }

  lemma {:induction false} TokensFromKeepCharacters(s: string, current: string)
    requires NoDelimiter(current)
    ensures Flatten(TokensFrom(s, current)) == current + WithoutDelimiters(s)
    decreases |s|
  {
    if |s| > 0 {
      if IsDelimiter(s[0]) {
        var head: seq<string> := if current == "" then [] else [current];
        TokensFromKeepCharacters(s[1..], "");
        FlattenAppend(head, TokensFrom(s[1..], ""));
        assert Flatten(head) == current;
      } else {
        TokensFromKeepCharacters(s[1..], current + [s[0]]);
        assert current + [s[0]] + WithoutDelimiters(s[1..]) == current + WithoutDelimiters(s);
      }
    }
  }

  /** No character is lost or reordered: the tokens, written one after the other,
      are the input without its delimiters. */
  lemma TokensKeepCharacters(s: string)
    ensures Flatten(Tokens(s)) == WithoutDelimiters(s)
  {
    TokensFromKeepCharacters(s, "");
  }

  lemma {:induction false} TokensFromWord(w: string, current: string)
    requires NoDelimiter(w) && NoDelimiter(current) && |current + w| > 0
    ensures TokensFrom(w, current) == [current + w]
    decreases |w|
  {
    if |w| > 0 {
      assert !IsDelimiter(w[0]);
      TokensFromWord(w[1..], current + [w[0]]);
      assert current + [w[0]] + w[1..] == current + w;
    } else {
      assert current + w == current;
    }
  }

  /** A non-empty run without delimiters is a single token. */
  lemma TokensOfWord(w: string)
    requires |w| > 0 && NoDelimiter(w)
    ensures Tokens(w) == [w]
  {
    TokensFromWord(w, "");
    assert "" + w == w;
  }

  lemma {:induction false} TokensFromSplit(s: string, d: char, t: string, current: string)
    requires IsDelimiter(d) && NoDelimiter(current)
    ensures TokensFrom(s + [d] + t, current) == TokensFrom(s, current) + TokensFrom(t, "")
    decreases |s|
  {
    var u := s + [d] + t;
    if |s| == 0 {
      assert u[1..] == t;
    } else {
      assert u[0] == s[0] && u[1..] == s[1..] + [d] + t;
      if IsDelimiter(s[0]) {
        TokensFromSplit(s[1..], d, t, "");
      } else {
        TokensFromSplit(s[1..], d, t, current + [s[0]]);
      }
    }
  }

  /** No token spans a delimiter: the tokens on either side of one are those of
      the two sides. */
  lemma TokensSplitAtDelimiter(s: string, d: char, t: string)
    requires IsDelimiter(d)
    ensures Tokens(s + [d] + t) == Tokens(s) + Tokens(t)
  {
    TokensFromSplit(s, d, t, "");
  }

  /** Tokens joined by single spaces. */
  function JoinedBySpaces(tokens: seq<string>): string {
    if |tokens| == 0 then "" else if |tokens| == 1 then tokens[0] else tokens[0] + " " + JoinedBySpaces(tokens[1..])
  }

  /** Splitting undoes joining with spaces, for tokens that are non-empty and free
      of delimiters. */
  lemma {:induction false} TokensOfJoined(tokens: seq<string>)
    requires forall t :: 0 <= t < |tokens| ==> |tokens[t]| > 0 && NoDelimiter(tokens[t])
    ensures Tokens(JoinedBySpaces(tokens)) == tokens
    decreases |tokens|
  {
    if |tokens| == 1 {
      TokensOfWord(tokens[0]);
    } else if |tokens| > 1 {
      TokensOfJoined(tokens[1..]);
      TokensSplitAtDelimiter(tokens[0], ' ', JoinedBySpaces(tokens[1..]));
      TokensOfWord(tokens[0]);
      assert tokens[0] + " " + JoinedBySpaces(tokens[1..]) == tokens[0] + [' '] + JoinedBySpaces(tokens[1..]);
      assert [tokens[0]] + tokens[1..] == tokens;
    }
  }

  /** `s.replace(from, to)`. */
  function Replace(s: string, from: char, to: char): (r: string)
    ensures |r| == |s|
    ensures forall k :: 0 <= k < |s| ==> r[k] == (if s[k] == from then to else s[k])
  {
    seq(|s|, k requires 0 <= k < |s| => if s[k] == from then to else s[k])
  }

  predicate StartsWith(s: string, prefix: string) {
    |prefix| <= |s| && s[..|prefix|] == prefix
  }

  /** The package prefix of a filter token longer than one character: the text
      after the sign, dots turned into slashes, ending in a slash. */
  function FilterPrefix(filter: string): (prefix: string)
    requires |filter| > 1
    ensures |prefix| > 0 && prefix[|prefix| - 1] == '/'
    ensures |filter| - 1 <= |prefix| && prefix[..|filter| - 1] == Replace(filter[1..], '.', '/')
  {
    var p := Replace(filter[1..], '.', '/');
    if p[|p| - 1] != '/' then p + "/" else p
  }

  /** Token `filter` is one `accepted` acts on, and its prefix matches `path`. */
  predicate FilterMatches(filter: string, path: string) {
    |filter| > 1 && StartsWith(path, FilterPrefix(filter))
  }

  /** Token `k` is the first token that matches `path`. */
  predicate FirstMatchAt(filters: seq<string>, path: string, k: int) {
    && 0 <= k < |filters| && FilterMatches(filters[k], path)
    && forall j :: 0 <= j < k ==> !FilterMatches(filters[j], path)
  }

  /** What `accepted` decides for the tokens `filters`: the first matching token
      decides by its sign; no match rejects. */
  function AcceptedBy(filters: seq<string>, path: string): (r: bool)
    ensures r <==> exists k :: FirstMatchAt(filters, path, k) && filters[k][0] == '+'
    decreases |filters|
  {
    if |filters| == 0 then false
    else if FilterMatches(filters[0], path) then
      assert FirstMatchAt(filters, path, 0);
      filters[0][0] == '+'
    else
      FirstMatchShifts(filters, path);
      AcceptedBy(filters[1..], path)
  }

  /** Past a token that does not match, the first match moves down by one. */
  lemma FirstMatchShifts(filters: seq<string>, path: string)
    requires |filters| > 0 && !FilterMatches(filters[0], path)
    ensures !FirstMatchAt(filters, path, 0)
    ensures forall k :: 0 < k ==> (FirstMatchAt(filters, path, k) <==> FirstMatchAt(filters[1..], path, k - 1))
    ensures forall k :: 0 < k < |filters| ==> filters[1..][k - 1] == filters[k]
  {
    forall k | 0 < k
      ensures FirstMatchAt(filters, path, k) <==> FirstMatchAt(filters[1..], path, k - 1)
    {
      if 0 < k <= |filters| {
        assert forall j :: 0 <= j < k - 1 ==> filters[1..][j] == filters[j + 1];
      }
    }
  }

  /** `accepted`: the tokenizer loop, returning on the first token that matches. */
  method Accepted(filters: string, path: string) returns (accepted: bool)
    ensures accepted == AcceptedBy(Tokens(filters), path)
  {
    var tokens := Tokens(filters);
    var k := 0;
    while k < |tokens|
      invariant 0 <= k <= |tokens|
      invariant AcceptedBy(tokens, path) == AcceptedBy(tokens[k..], path)
    {
      var filter := tokens[k];
      if |filter| > 1 {
        var prefix := FilterPrefix(filter);
        if StartsWith(path, prefix) {
          return filter[0] == '+';
        }
      }
      assert tokens[k..][1..] == tokens[k + 1..];
      k := k + 1;
    }
    return false;
  }

  /** The first token that matches decides, whatever the tokens after it say. */
  lemma {:induction false} FirstMatchDecides(filters: seq<string>, path: string, k: nat)
    requires k < |filters| && FilterMatches(filters[k], path)
    requires forall j :: 0 <= j < k ==> !FilterMatches(filters[j], path)
    ensures AcceptedBy(filters, path) == (filters[k][0] == '+')
    decreases k
  {
    if k > 0 {
      assert forall j :: 0 <= j < k - 1 ==> filters[1..][j] == filters[j + 1];
      FirstMatchDecides(filters[1..], path, k - 1);
    }
  }

  /** A path no token matches is rejected. */
  lemma {:induction false} NoMatchRejects(filters: seq<string>, path: string)
    requires forall j :: 0 <= j < |filters| ==> !FilterMatches(filters[j], path)
    ensures !AcceptedBy(filters, path)
    decreases |filters|
  {
    if |filters| > 0 {
      NoMatchRejects(filters[1..], path);
    }
  }

  /** Tokens of one character are skipped: removing them changes nothing. */
  lemma {:induction false} ShortTokensIgnored(filters: seq<string>, path: string, k: nat)
    requires k < |filters| && |filters[k]| <= 1
    ensures AcceptedBy(filters, path) == AcceptedBy(filters[..k] + filters[k + 1..], path)
    decreases k
  {
    var kept := filters[..k] + filters[k + 1..];
    if k > 0 {
      assert kept[0] == filters[0];
      assert kept[1..] == filters[1..][..k - 1] + filters[1..][k..];
      ShortTokensIgnored(filters[1..], path, k - 1);
    } else {
      assert kept == filters[1..];
      assert !FilterMatches(filters[0], path);
    }
  }

  /** Earlier filters win: with "+com.google -com", classes under com/google are
      accepted and other classes under com are rejected. */
  lemma EarlierFilterWins()
    ensures AcceptedBy(["+com.google", "-com"], "com/google/Foo.class")
    ensures !AcceptedBy(["+com.google", "-com"], "com/foo/Bar.class")
  {
    var filters := ["+com.google", "-com"];
    assert FilterPrefix("+com.google") == "com/google/";
    assert FilterPrefix("-com") == "com/";
    assert FilterMatches(filters[0], "com/google/Foo.class");
    assert !FilterMatches(filters[0], "com/foo/Bar.class");
    assert FilterMatches(filters[1], "com/foo/Bar.class");
    FirstMatchDecides(filters, "com/foo/Bar.class", 1);
  }

  // -- The artifact id and the paths ------------------------------------------ //

  datatype ArtifactId = ArtifactId(groupId: string, artifactId: string, version: string)

  /** The search result id of an artifact: `groupId:artifactId:version`. */
  function JoinId(a: ArtifactId): string {
    a.groupId + ":" + a.artifactId + ":" + a.version
  }

  /** The split of a search result id: the group before the first ':', the
      version after the last, the artifact in between. With fewer than two ':'
      a `substring` call throws, which the loader catches and counts as a
      failed download: `None`. */
  function SplitId(id: string): (r: Option<ArtifactId>)
    ensures r.Some? ==> id == JoinId(r.value)
    ensures r.Some? ==> ':' !in r.value.groupId && ':' !in r.value.version
  {
    var index1 := IndexOf(id, ':');
    var index2 := LastIndexOf(id, ':');
    if index1 < 0 || index1 + 1 > index2 then None
    else
      SplitAtColons(id, index1, index2);
      Some(ArtifactId(id[..index1], id[index1 + 1..index2], id[index2 + 1..]))
  }

  /** Cutting `id` at a first and a last ':' gives parts that join back to it. */
  lemma SplitAtColons(id: string, i: nat, j: nat)
    requires i < j < |id| && id[i] == ':' && id[j] == ':'
    requires forall k :: 0 <= k < i ==> id[k] != ':'
    requires forall k :: j < k < |id| ==> id[k] != ':'
    ensures id == id[..i] + ":" + id[i + 1..j] + ":" + id[j + 1..]
    ensures ':' !in id[..i] && ':' !in id[j + 1..]
  {
    assert id[..i] + [id[i]] + id[i + 1..j] + [id[j]] + id[j + 1..] == id;
  }

  /** Joining three parts with ':' and splitting gives them back, as long as the
      group and the version hold no ':' (the artifact may). */
  lemma SplitIdRoundTrip(a: ArtifactId)
    requires ':' !in a.groupId && ':' !in a.version
    ensures SplitId(JoinId(a)) == Some(a)
  {
    var id := JoinId(a);
    var i1 := |a.groupId|;
    var i2 := |a.groupId| + 1 + |a.artifactId|;
    JoinParts(a);
    IndexOfIs(id, ':', i1);
    LastIndexOfIs(id, ':', i2);
    SplitIdAt(id, i1, i2);
    assert ArtifactId(id[..i1], id[i1 + 1..i2], id[i2 + 1..]) == ArtifactId(a.groupId, a.artifactId, a.version);
  }

  /** With its first ':' at `i` and its last at `j > i`, an id splits there. */
  lemma SplitIdAt(id: string, i: int, j: int)
    requires IndexOf(id, ':') == i && LastIndexOf(id, ':') == j && i < j
    ensures SplitId(id) == Some(ArtifactId(id[..i], id[i + 1..j], id[j + 1..]))
  {
  }

  /** Where the parts of a joined id sit. */
  lemma JoinParts(a: ArtifactId)
    ensures var id := JoinId(a);
            var i1 := |a.groupId|;
            var i2 := |a.groupId| + 1 + |a.artifactId|;
            && |id| == i2 + 1 + |a.version|
            && id[..i1] == a.groupId && id[i1] == ':'
            && id[i1 + 1..i2] == a.artifactId && id[i2] == ':' && id[i2 + 1..] == a.version
  {
    var id := JoinId(a);
    var i1 := |a.groupId|;
    var i2 := |a.groupId| + 1 + |a.artifactId|;
    assert id == (a.groupId + ":") + (a.artifactId + ":") + a.version;
    assert id[..i1] == a.groupId;
    assert id[i1 + 1..i2] == a.artifactId;
    assert id[i2 + 1..] == a.version;
  }

  /** An id with fewer than two ':' is refused: with none, or with a single one
      at position `i`. */
  lemma FewerThanTwoColonsRefused(id: string, i: nat)
    requires ':' !in id || (i < |id| && id[i] == ':' && ':' !in id[..i] && ':' !in id[i + 1..])
    ensures SplitId(id) == None
  {
    if ':' in id {
      IndexOfIs(id, ':', i);
      LastIndexOfIs(id, ':', i);
    }
  }

  /** The path of the source jar under the repository root, without its suffix:
      the group with dots turned into directories, the artifact, the version,
      then `artifactId-version`. */
  function SourceJarPath(a: ArtifactId): (path: string)
    ensures StartsWith(path, Replace(a.groupId, '.', '/') + "/" + a.artifactId + "/" + a.version + "/")
    ensures path[|path| - |a.artifactId| - 1 - |a.version|..] == a.artifactId + "-" + a.version
    ensures |path| == |a.groupId| + 2 * (|a.artifactId| + |a.version|) + 4
  {
    Replace(a.groupId, '.', '/') + "/" + a.artifactId + "/" + a.version + "/" + a.artifactId + "-" + a.version
  }

  /** The name of the `.java` entry searched for: the `.class` entry's path minus
      its last six characters, plus ".java". A path shorter than six characters
      makes `substring` throw: `None`. */
  function JavaSourceName(path: string): (r: Option<string>)
    ensures r.Some? <==> |path| >= 6
    ensures r.Some? ==> StartsWith(r.value, path[..|path| - 6]) && |r.value| == |path| - 1
  {
    if |path| < 6 then None else Some(path[..|path| - 6] + ".java")
  }

  /** For a class file entry the suffix ".class" becomes ".java". */
  lemma ClassEntryToJavaName(stem: string)
    ensures JavaSourceName(stem + ".class") == Some(stem + ".java")
  {
    assert (stem + ".class")[..|stem|] == stem;
  }

  // -- The jar cache of downloadSourceJarFile --------------------------------- //

  /** The loader's two per-entry records: jars already downloaded, and entries
      whose download failed. Entries and files are named by their paths. */
  class SourceJarCache {
    var cache: map<string, string>
    var failed: set<string>

    constructor ()
      ensures cache == map[] && failed == {}
    {
      cache := map[];
      failed := {};
    }

    /** `downloadSourceJarFile`: a cached jar is returned as it is; a directory or
        an entry that failed before is not retried; otherwise `fetched` is what
        the search and download produced (`None` when any step failed), and the
        outcome is recorded. */
    method DownloadSourceJarFile(entry: string, isDirectory: bool, fetched: Option<string>)
      returns (file: Option<string>)
      modifies this
      ensures entry in old(cache) ==> file == Some(old(cache)[entry]) && cache == old(cache) && failed == old(failed)
      ensures entry !in old(cache) && !isDirectory && entry !in old(failed) && fetched.Some? ==>
                file == fetched && cache == old(cache)[entry := fetched.value] && failed == old(failed)
      ensures entry !in old(cache) && (isDirectory || entry in old(failed) || fetched.None?) ==>
                file == None && cache == old(cache) && failed == old(failed) + {entry}
    {
      if entry in cache {
        return Some(cache[entry]);
      }
      if !isDirectory && entry !in failed {
        if fetched.Some? {
          cache := cache[entry := fetched.value];
          return fetched;
        }
      }
      failed := failed + {entry};
      return None;
    }
  }

  /** Once an entry has failed, later calls return nothing whatever the network
      would now produce, until it is cached (which then never happens). */
  method FailedEntryNotRetried(loader: SourceJarCache, entry: string, fetched: Option<string>)
    returns (file: Option<string>)
    requires entry in loader.failed && entry !in loader.cache
    modifies loader
    ensures file == None && entry in loader.failed && entry !in loader.cache
  {
    file := loader.DownloadSourceJarFile(entry, false, fetched);
  }
}
