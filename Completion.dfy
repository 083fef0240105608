/** Tab completion of the terminal's input line: which word is completed, against
    what (the command registry or a directory listing), and the longest common
    prefix the line is extended to when several candidates remain. The registry's
    keys, `resolvePath` and `listDirectory` belong to modules that are not part of
    this model and are taken as parameters. */
module Completion {
  import opened Wrappers
  import opened Strings

  /** One directory entry as the listing reports it. */
  datatype Entry = Entry(name: string, isDirectory: bool)

  /** `resolvePath(path, cwd)`: an absolute path for `path` relative to `cwd`. */
  type Resolver = (string, string) -> string

  /** `listDirectory(path, flag)`: the entries of a directory, or `None` when the
      path cannot be listed (the call throws or does not give an array). The
      desktop terminal calls it without the flag, modelled as `false`. */
  type Lister = (string, bool) -> Option<seq<Entry>>

  // ---------------------------------------------------------------------------
  // Words of the input line
  // ---------------------------------------------------------------------------

  /** `line.split(' ')`. */
  function Words(line: string): (parts: seq<string>)
    ensures |parts| >= 1
  {
    Split(line, ' ')
  }

  /** The word under completion: the text after the last space. */
  function LastWord(line: string): string
  {
    Words(line)[|Words(line)| - 1]
  }

  /** `parts[parts.length - 1] = w; parts.join(' ')`. */
  function ReplaceLastWord(line: string, w: string): string
  {
    var parts := Words(line);
    Join(parts[..|parts| - 1] + [w], ' ')
  }

  /** The last word is a suffix of the line, and replacing it keeps everything in
      front of it. */
  lemma ReplaceLastWordKeepsHead(line: string, w: string)
    ensures |LastWord(line)| <= |line|
    ensures line == line[..|line| - |LastWord(line)|] + LastWord(line)
    ensures ReplaceLastWord(line, w) == line[..|line| - |LastWord(line)|] + w
  {
    var parts := Words(line);
    var n := |parts|;
    var last := parts[n - 1];
    JoinSplit(line, ' ');
    assert parts == parts[..n - 1] + [last];
    var head := if n == 1 then "" else Join(parts[..n - 1], ' ') + " ";
    if n > 1 {
      JoinSnoc(parts[..n - 1], last, ' ');
      JoinSnoc(parts[..n - 1], w, ' ');
    }
    assert line == head + last;
    assert ReplaceLastWord(line, w) == head + w;
    assert line[..|line| - |last|] == head;
  }

  /** Replacing the last word by a word without spaces gives a line with the same
      words except the last. */
  lemma ReplaceLastWordWords(line: string, w: string)
    requires ' ' !in w
    ensures Words(ReplaceLastWord(line, w)) == Words(line)[..|Words(line)| - 1] + [w]
    ensures LastWord(ReplaceLastWord(line, w)) == w
  {
    var parts := Words(line);
    var ps := parts[..|parts| - 1] + [w];
    forall i | 0 <= i < |ps| ensures ' ' !in ps[i] {
      if i < |parts| - 1 { assert ps[i] == parts[i]; }
    }
    SplitJoin(ps, ' ');
  }

  // ---------------------------------------------------------------------------
  // Candidates
  // ---------------------------------------------------------------------------

  /** Command-name mode: the line is one non-empty word, or exactly two words of
      which the first is `sudo`; every other line completes a path. */
  predicate CompletesCommandName(line: string)
  {
    var parts := Words(line);
    (|parts| == 1 && parts[0] != "") || (parts[0] == "sudo" && |parts| == 2)
  }

  /** The registry keys that start with `prefix`, in registry order. */
  function CommandCandidates(keys: seq<string>, prefix: string): (r: seq<string>)
    ensures forall c :: c in r <==> c in keys && prefix <= c
    ensures |r| <= |keys|
  {
    if keys == [] then []
    else (if prefix <= keys[0] then [keys[0]] else []) + CommandCandidates(keys[1..], prefix)
  }

  /** Where path completion looks: the directory to list, the name prefix to
      filter by, and the text put back in front of every hit. */
  datatype Target = Target(dir: string, filter: string, base: string)

  /** Splits the word at its last `/`: the text before it names the directory
      (`/` when that text is empty, resolved against `cwd` when relative); the text
      after it filters the names. A word without `/` filters the names of `cwd`. */
  function PathTarget(word: string, cwd: string, resolve: Resolver): (t: Target)
    ensures t.base + t.filter == word
    ensures '/' !in t.filter
    ensures '/' !in word ==> t == Target(cwd, word, "")
    ensures '/' in word ==>
      |t.base| >= 1 && t.base[|t.base| - 1] == '/' &&
      var left := t.base[..|t.base| - 1];
      t.dir == if left == "" then "/" else if left[0] == '/' then left else resolve(left, cwd)
  {
    if '/' in word then
      var k := LastIndexOf(word, '/');
      var dir := if word[..k] == "" then "/" else word[..k];
      assert word[..k + 1][..k] == word[..k];
      Target(if dir[0] == '/' then dir else resolve(dir, cwd), word[k + 1..], word[..k + 1])
    else
      Target(cwd, word, "")
  }

  /** The entries whose names start with `filter`, in listing order. */
  function Matching(entries: seq<Entry>, filter: string): (r: seq<Entry>)
    ensures forall e :: e in r <==> e in entries && filter <= e.name
    ensures |r| <= |entries|
  {
    if entries == [] then []
    else (if filter <= entries[0].name then [entries[0]] else []) + Matching(entries[1..], filter)
  }

  /** An entry requalified under `base`: directories get a trailing `/`. */
  function Qualify(base: string, e: Entry): string
  {
    base + e.name + (if e.isDirectory then "/" else "")
  }

  /** A requalified entry begins with `base` and ends with `/` exactly when it is a
      directory (entry names never contain `/` and are not empty). */
  lemma QualifyShape(base: string, e: Entry)
    requires e.name != "" && '/' !in e.name
    ensures base + e.name <= Qualify(base, e)
    ensures Qualify(base, e)[|Qualify(base, e)| - 1] == '/' <==> e.isDirectory
  {
    var q := Qualify(base, e);
    if !e.isDirectory {
      assert q[|q| - 1] == e.name[|e.name| - 1];
    }
  }

  function QualifyAll(base: string, es: seq<Entry>): (r: seq<string>)
    ensures |r| == |es|
    ensures forall i :: 0 <= i < |es| ==> r[i] == Qualify(base, es[i])
  {
    if es == [] then [] else [Qualify(base, es[0])] + QualifyAll(base, es[1..])
  }

  /** The requalified entries are exactly the entries, requalified. */
  lemma QualifyAllMembers(base: string, es: seq<Entry>)
    ensures forall c :: c in QualifyAll(base, es) <==> exists e :: e in es && c == Qualify(base, e)
  {
    var r := QualifyAll(base, es);
    forall c | c in r ensures exists e :: e in es && c == Qualify(base, e) {
      var i :| 0 <= i < |r| && r[i] == c;
      assert es[i] in es;
    }
    forall c | exists e :: e in es && c == Qualify(base, e) ensures c in r {
      var e :| e in es && c == Qualify(base, e);
      var i :| 0 <= i < |es| && es[i] == e;
      assert r[i] == c;
    }
  }

  /** The hits of a listing: each entry whose name starts with `filter`,
      requalified under `base`, and nothing else. */
  lemma HitsMembers(base: string, items: seq<Entry>, filter: string)
    ensures forall c :: c in QualifyAll(base, Matching(items, filter)) <==>
      exists e :: e in items && filter <= e.name && c == Qualify(base, e)
  {
    QualifyAllMembers(base, Matching(items, filter));
  }

  /** Every hit begins with the base followed by the filter. */
  lemma HitsExtend(base: string, items: seq<Entry>, filter: string)
    ensures forall c :: c in QualifyAll(base, Matching(items, filter)) ==> base + filter <= c
  {
    var hits := Matching(items, filter);
    var r := QualifyAll(base, hits);
    forall c | c in r ensures base + filter <= c {
      var i :| 0 <= i < |r| && r[i] == c;
      assert hits[i] in hits;
      assert c == base + hits[i].name + (if hits[i].isDirectory then "/" else "");
    }
  }

  /** Path mode: the listed entries matching the filter, requalified; nothing when
      the directory cannot be listed. */
  function PathCandidates(word: string, cwd: string, resolve: Resolver, list: Lister): (r: seq<string>)
    ensures list(PathTarget(word, cwd, resolve).dir, false).None? ==> r == []
    ensures var t := PathTarget(word, cwd, resolve);
      list(t.dir, false).Some? ==>
        forall c :: c in r <==> exists e :: e in list(t.dir, false).value && t.filter <= e.name && c == Qualify(t.base, e)
    ensures forall c :: c in r ==> word <= c
  {
    var t := PathTarget(word, cwd, resolve);
    match list(t.dir, false)
    case None => []
    case Some(items) =>
      var hits := Matching(items, t.filter);
      var r := QualifyAll(t.base, hits);
      HitsMembers(t.base, items, t.filter);
      HitsExtend(t.base, items, t.filter);
      r
  }

  /** The candidates a Tab press on the desktop terminal offers for `line`. */
  function Candidates(line: string, keys: seq<string>, cwd: string, resolve: Resolver, list: Lister): seq<string>
  {
    if CompletesCommandName(line) then CommandCandidates(keys, LastWord(line))
    else PathCandidates(LastWord(line), cwd, resolve, list)
  }

  /** Completion only ever extends the word under the cursor: every candidate, in
      either mode, begins with it. */
  lemma CandidatesExtendWord(line: string, keys: seq<string>, cwd: string, resolve: Resolver, list: Lister)
    ensures forall c :: c in Candidates(line, keys, cwd, resolve, list) ==> LastWord(line) <= c
  {
  }

  // ---------------------------------------------------------------------------
  // Longest common prefix
  // ---------------------------------------------------------------------------

  /** The longest common prefix of two strings: a prefix of both that cannot be
      extended by one more common character. */
  function CommonPrefix2(a: string, b: string): (r: string)
    ensures r <= a && r <= b
    ensures |r| == |a| || |r| == |b| || a[|r|] != b[|r|]
  {
    if a == [] || b == [] || a[0] != b[0] then []
    else [a[0]] + CommonPrefix2(a[1..], b[1..])
  }

  /** Every common prefix of two strings is a prefix of `CommonPrefix2`. */
  lemma {:induction false} CommonPrefix2Greatest(a: string, b: string, q: string)
    requires q <= a && q <= b
    ensures q <= CommonPrefix2(a, b)
  {
    if q != [] {
      assert a[0] == q[0] == b[0];
      CommonPrefix2Greatest(a[1..], b[1..], q[1..]);
    }
  }

  /** `q` is a prefix of every candidate. */
  ghost predicate IsCommonPrefix(q: string, cs: seq<string>)
  {
    forall i :: 0 <= i < |cs| ==> q <= cs[i]
  }

  /** The longest common prefix of the candidates, folded from the left like the
      source's loop. */
  function LongestCommonPrefix(cs: seq<string>): (r: string)
    requires |cs| >= 1
    ensures forall i :: 0 <= i < |cs| ==> r <= cs[i]
  {
    if |cs| == 1 then cs[0]
    else
      var init := LongestCommonPrefix(cs[..|cs| - 1]);
      var r := CommonPrefix2(init, cs[|cs| - 1]);
      assert forall i :: 0 <= i < |cs| - 1 ==> r <= cs[i] by {
        forall i | 0 <= i < |cs| - 1 ensures r <= cs[i] {
          assert init <= cs[..|cs| - 1][i];
        }
      }
      r
  }

  /** ... and it is the longest: every common prefix of the candidates is a prefix
      of it. */
  lemma {:induction false} LongestCommonPrefixGreatest(cs: seq<string>, q: string)
    requires |cs| >= 1
    requires IsCommonPrefix(q, cs)
    ensures q <= LongestCommonPrefix(cs)
  {
    if |cs| > 1 {
      var init := cs[..|cs| - 1];
      assert IsCommonPrefix(q, init) by {
        forall i | 0 <= i < |init| ensures q <= init[i] { assert init[i] == cs[i]; }
      }
      LongestCommonPrefixGreatest(init, q);
      assert q <= cs[|cs| - 1];
      CommonPrefix2Greatest(LongestCommonPrefix(init), cs[|cs| - 1], q);
    }
  }

  /** One more candidate folds into the longest common prefix. */
  lemma LongestCommonPrefixSnoc(cs: seq<string>, i: nat)
    requires 1 <= i < |cs|
    ensures LongestCommonPrefix(cs[..i + 1]) == CommonPrefix2(LongestCommonPrefix(cs[..i]), cs[i])
  {
    assert cs[..i + 1][..i] == cs[..i];
  }

  /** Dropping the last character of a shrinking prefix that is not yet a prefix
      of `b` keeps it above the common prefix of `a` and `b`. */
  lemma ShrinkStep(a: string, b: string, p: string)
    requires CommonPrefix2(a, b) <= p
    requires !(p <= b)
    ensures p != [] && CommonPrefix2(a, b) <= p[..|p| - 1]
  {
    var c := CommonPrefix2(a, b);
    assert c != p;
  }

  /** The loop of the source: start from the first candidate and drop its last
      character until it is a prefix of the next candidate, for each candidate in
      turn. It ends with the longest common prefix. */
  method CommonPrefix(cs: seq<string>) returns (p: string)
    requires |cs| >= 1
    ensures p == LongestCommonPrefix(cs)
  {
    p := cs[0];
    assert cs[..1] == [cs[0]];
    var i := 1;
    while i < |cs|
      invariant 1 <= i <= |cs|
      invariant p == LongestCommonPrefix(cs[..i])
    {
      ghost var p0 := p;
      while !(p <= cs[i])
        invariant p <= p0
        invariant CommonPrefix2(p0, cs[i]) <= p
        decreases |p|
      {
        ShrinkStep(p0, cs[i], p);
        p := p[..|p| - 1];
      }
      CommonPrefix2Greatest(p0, cs[i], p);
      LongestCommonPrefixSnoc(cs, i);
      i := i + 1;
    }
    assert cs[..|cs|] == cs;
  }

  /** With at least one candidate, the common prefix extends the word under
      completion, so "strictly longer than the word" means "different from it". */
  lemma PrefixExtendsWord(line: string, keys: seq<string>, cwd: string, resolve: Resolver, list: Lister)
    requires |Candidates(line, keys, cwd, resolve, list)| >= 1
    ensures LastWord(line) <= LongestCommonPrefix(Candidates(line, keys, cwd, resolve, list))
  {
    var cs := Candidates(line, keys, cwd, resolve, list);
    CandidatesExtendWord(line, keys, cwd, resolve, list);
    assert IsCommonPrefix(LastWord(line), cs) by {
      forall i | 0 <= i < |cs| ensures LastWord(line) <= cs[i] { assert cs[i] in cs; }
    }
    LongestCommonPrefixGreatest(cs, LastWord(line));
  }

  /** Narrowing the prefix to one that every candidate already has keeps the same
      candidates, in the same order. */
  lemma {:induction false} CommandCandidatesNarrow(keys: seq<string>, p: string, q: string)
    requires p <= q
    requires forall c :: c in CommandCandidates(keys, p) ==> q <= c
    ensures CommandCandidates(keys, q) == CommandCandidates(keys, p)
  {
    if keys != [] {
      var rest := CommandCandidates(keys[1..], p);
      assert forall c :: c in rest ==> q <= c by {
        forall c | c in rest ensures q <= c {
          assert c in CommandCandidates(keys, p);
        }
      }
      CommandCandidatesNarrow(keys[1..], p, q);
      if p <= keys[0] {
        assert keys[0] in CommandCandidates(keys, p);
      }
    }
  }

  /** In command-name mode with several candidates (registry keys contain no
      spaces), the line after a Tab press completes to the same candidates again
      and their common prefix is the new last word: a second Tab press changes
      nothing. */
  lemma CommandCompletionStable(line: string, keys: seq<string>, cwd: string, resolve: Resolver, list: Lister)
    requires forall k :: k in keys ==> ' ' !in k
    requires CompletesCommandName(line)
    requires |Candidates(line, keys, cwd, resolve, list)| > 1
    ensures var cs := Candidates(line, keys, cwd, resolve, list);
      var lcp := LongestCommonPrefix(cs);
      var next := if |lcp| > |LastWord(line)| then ReplaceLastWord(line, lcp) else line;
      CompletesCommandName(next) &&
      Candidates(next, keys, cwd, resolve, list) == cs &&
      LastWord(next) == lcp
  {
    var cs := Candidates(line, keys, cwd, resolve, list);
    var lcp := LongestCommonPrefix(cs);
    var w := LastWord(line);
    PrefixExtendsWord(line, keys, cwd, resolve, list);
    assert cs[0] in keys;
    assert ' ' !in lcp by {
      forall j | 0 <= j < |lcp| ensures lcp[j] != ' ' { assert lcp[j] == cs[0][j]; }
    }
    if |lcp| > |w| {
      var next := ReplaceLastWord(line, lcp);
      ReplaceLastWordWords(line, lcp);
      assert Words(next)[0] == (if |Words(line)| == 1 then lcp else Words(line)[0]);
      assert lcp != [];
      assert CompletesCommandName(next);
      assert forall c :: c in CommandCandidates(keys, w) ==> lcp <= c by {
        forall c | c in CommandCandidates(keys, w) ensures lcp <= c {
          var i :| 0 <= i < |cs| && cs[i] == c;
        }
      }
      CommandCandidatesNarrow(keys, w, lcp);
    } else {
      assert w == lcp;
    }
  }

  // ---------------------------------------------------------------------------
  // Mobile completion
  // ---------------------------------------------------------------------------

  /** Where the mobile completer looks. An absolute word is split at its last `/`
      (the directory is `/` when that is the first character) and hits are prefixed
      with the directory and `/`; a relative word with `/` resolves the text before
      the last `/` against `cwd` and prefixes hits with that text and `/`; a word
      without `/` lists `cwd` (`/home/user` when `cwd` is empty). */
  function MobileTarget(word: string, cwd: string, resolve: Resolver): (t: Target)
    requires word != ""
    ensures '/' !in t.filter
    ensures !(|word| >= 2 && word[..2] == "//") ==> t.base + t.filter == word
    ensures '/' !in word ==> t == Target(if cwd == "" then "/home/user" else cwd, word, "")
  {
    if word[0] == '/' then
      var k := LastIndexOf(word, '/');
      var dir := if k == 0 then "/" else word[..k];
      assert k != 0 && dir == "/" ==> k == 1 && word[..2] == "//" by {
        if k != 0 && dir == "/" { assert word[..2] == word[..k + 1]; }
      }
      assert word == word[..k] + [word[k]] + word[k + 1..];
      Target(dir, word[k + 1..], if dir == "/" then "/" else dir + "/")
    else if '/' in word then
      var k := LastIndexOf(word, '/');
      assert word == word[..k] + [word[k]] + word[k + 1..];
      Target(resolve(word[..k], cwd), word[k + 1..], word[..k] + "/")
    else
      Target(if cwd == "" then "/home/user" else cwd, word, "")
  }

  /** A word starting with `//` and no further `/` loses one of its slashes in the
      requalified hits. */
  lemma MobileTargetDoubleSlash(cwd: string, resolve: Resolver)
    ensures MobileTarget("//e", cwd, resolve) == Target("/", "e", "/")
  {
    assert LastIndexOf("//e", '/') == 1;
  }

  /** The mobile file candidates: entries of the target directory whose names
      start with the filter, requalified; nothing when the listing fails. */
  function MobileFileCandidates(word: string, cwd: string, resolve: Resolver, list: Lister): (r: seq<string>)
    requires word != ""
    ensures list(MobileTarget(word, cwd, resolve).dir, true).None? ==> r == []
    ensures var t := MobileTarget(word, cwd, resolve);
      list(t.dir, true).Some? ==>
        forall c :: c in r <==> exists e :: e in list(t.dir, true).value && t.filter <= e.name && c == Qualify(t.base, e)
    ensures !(|word| >= 2 && word[..2] == "//") ==> forall c :: c in r ==> word <= c
  {
    var t := MobileTarget(word, cwd, resolve);
    match list(t.dir, true)
    case None => []
    case Some(items) =>
      var hits := Matching(items, t.filter);
      var r := QualifyAll(t.base, hits);
      HitsMembers(t.base, items, t.filter);
      HitsExtend(t.base, items, t.filter);
      r
  }

  /** The mobile candidates for a non-empty last word: registry keys starting with
      the lower-cased word when the line is one word, followed by the file
      candidates (looked up in every case). An empty last word has none. */
  function MobileCandidates(line: string, keys: seq<string>, cwd: string, resolve: Resolver, list: Lister): (r: seq<string>)
    ensures LastWord(line) == "" ==> r == []
    ensures |Words(line)| > 1 && LastWord(line) != "" ==> r == MobileFileCandidates(LastWord(line), cwd, resolve, list)
    ensures |Words(line)| == 1 && LastWord(line) != "" ==>
      forall c :: c in r <==>
        (c in keys && ToLower(LastWord(line)) <= c) || c in MobileFileCandidates(LastWord(line), cwd, resolve, list)
  {
    var w := LastWord(line);
    if w == "" then []
    else
      (if |Words(line)| == 1 then CommandCandidates(keys, ToLower(w)) else [])
      + MobileFileCandidates(w, cwd, resolve, list)
  }
}
