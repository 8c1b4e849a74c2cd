/** RegularSlashes: the form of paths in file system manifests. */
module ManifestPath {
  import opened Bytes
  import opened Manifest

  const SLASH: Byte := 47

  /** Scanning a path: the words that are complete, and the one in progress. */
  datatype Scan = Scan(done: seq<Path>, cur: Path)

  function Scanned(p: Path): Scan {
    if p == [] then Scan([], []) else Step(Scanned(p[..|p| - 1]), p[|p| - 1])
  }

  function Step(s: Scan, c: Byte): Scan {
    if c != SLASH then Scan(s.done, s.cur + [c])
    else if s.cur == [] then s
    else Scan(s.done + [s.cur], [])
  }

  /** The words between slashes, without the empty ones. */
  function Words(p: Path): seq<Path> {
    var s := Scanned(p);
    if s.cur == [] then s.done else s.done + [s.cur]
  }

  /** Every word followed by one slash. */
  function Ended(ws: seq<Path>): Path {
    if ws == [] then [] else Ended(ws[..|ws| - 1]) + ws[|ws| - 1] + [SLASH]
  }

  /** Words with single slashes between them. */
  function Joined(ws: seq<Path>): Path {
    if ws == [] then [] else Ended(ws)[..|Ended(ws)| - 1]
  }

  predicate Word(w: Path) {
    w != [] && SLASH !in w
  }

  predicate AllWords(ws: seq<Path>) {
    forall i :: 0 <= i < |ws| ==> Word(ws[i])
  }

  lemma {:induction false} ScannedWords(p: Path)
    ensures AllWords(Scanned(p).done) && SLASH !in Scanned(p).cur
    ensures p != [] && p[|p| - 1] == SLASH ==> Scanned(p).cur == []
    ensures p != [] && p[|p| - 1] != SLASH ==> Scanned(p).cur != []
  {
    if p != [] {
      ScannedWords(p[..|p| - 1]);
    }
  }

  lemma EndedSnoc(ws: seq<Path>, w: Path)
    ensures Ended(ws + [w]) == Ended(ws) + w + [SLASH]
  {
    assert (ws + [w])[..|ws|] == ws;
  }

  lemma JoinedSnoc(ws: seq<Path>, w: Path)
    ensures Joined(ws + [w]) == Ended(ws) + w
  {
    EndedSnoc(ws, w);
  }

  /** RegularSlashes: exactly the words of the path, with single slashes between
      them. */
  method RegularSlashes(path: Path) returns (res: Path)
    ensures res == Joined(Words(path))
  {
    hide Ended;
    res := [];
    EndedNone();
    for i := 0 to |path|
      invariant res == Ended(Scanned(path[..i]).done) + Scanned(path[..i]).cur
    {
      var s := Scanned(path[..i]);
      ScannedWords(path[..i]);
      assert path[..i + 1][..i] == path[..i];
      assert i > 0 ==> path[..i][i - 1] == path[i - 1];
      EndedSnoc(s.done, s.cur);
      assert i == 0 ==> path[..i] == [];
      if path[i] != SLASH || (i > 0 && path[i - 1] != SLASH) {
        res := res + path[i..i + 1];
      }
    }
    assert path[..|path|] == path;
    var s := Scanned(path);
    ScannedWords(path);
    CutSlash(s, res);
    if |res| > 0 && res[|res| - 1] == SLASH {
      res := res[..|res| - 1];
    }
  }

  lemma EndedNone()
    ensures Ended([]) == []
  {
  }

  lemma CutSlash(s: Scan, res: Path)
    requires res == Ended(s.done) + s.cur && SLASH !in s.cur
    ensures var ws := if s.cur == [] then s.done else s.done + [s.cur];
            Joined(ws) == if |res| > 0 && res[|res| - 1] == SLASH then res[..|res| - 1] else res
  {
    if s.cur != [] {
      JoinedSnoc(s.done, s.cur);
      assert res[|res| - 1] == s.cur[|s.cur| - 1];
    } else {
      assert res == Ended(s.done);
      if s.done != [] {
        EndedSnoc(s.done[..|s.done| - 1], s.done[|s.done| - 1]);
        assert s.done[..|s.done| - 1] + [s.done[|s.done| - 1]] == s.done;
      }
    }
  }

  // ----- the form is canonical -----

  lemma {:induction false} ScanWord(p: Path, w: Path)
    requires SLASH !in w && Scanned(p).cur == []
    ensures Scanned(p + w) == Scan(Scanned(p).done, w)
  {
    if w == [] {
      assert p + w == p;
    } else {
      var n := |w| - 1;
      assert w == w[..n] + [w[n]];
      ScanWord(p, w[..n]);
      assert (p + w)[..|p + w| - 1] == p + w[..n];
    }
  }

  lemma ScannedSnoc(p: Path, c: Byte)
    ensures Scanned(p + [c]) == Step(Scanned(p), c)
  {
    assert (p + [c])[..|p|] == p;
  }

  lemma {:induction false} ScanEnded(ws: seq<Path>)
    requires AllWords(ws)
    ensures Scanned(Ended(ws)) == Scan(ws, [])
  {
    if ws != [] {
      hide Scanned, Ended;
      var n := |ws| - 1;
      assert ws == ws[..n] + [ws[n]];
      ScanEnded(ws[..n]);
      ScanWord(Ended(ws[..n]), ws[n]);
      EndedSnoc(ws[..n], ws[n]);
      ScannedSnoc(Ended(ws[..n]) + ws[n], SLASH);
    }
  }

  /** Joining and splitting undo each other. */
  lemma WordsJoined(ws: seq<Path>)
    requires AllWords(ws)
    ensures Words(Joined(ws)) == ws
  {
    if ws != [] {
      var n := |ws| - 1;
      assert ws == ws[..n] + [ws[n]];
      JoinedSnoc(ws[..n], ws[n]);
      ScanEnded(ws[..n]);
      ScanWord(Ended(ws[..n]), ws[n]);
    }
  }

  lemma WordsAreWords(p: Path)
    ensures AllWords(Words(p))
  {
    ScannedWords(p);
  }

  /** Regularizing twice changes nothing more, and two paths get the same form
      exactly when they have the same words. */
  lemma RegularFormCanonical(p: Path, q: Path)
    ensures Joined(Words(Joined(Words(p)))) == Joined(Words(p))
    ensures Joined(Words(p)) == Joined(Words(q)) <==> Words(p) == Words(q)
  {
    WordsAreWords(p);
    WordsAreWords(q);
    WordsJoined(Words(p));
    WordsJoined(Words(q));
  }

  /** No slash at either end and no two in a row. */
  ghost predicate Regular(p: Path) {
    && (p != [] ==> p[0] != SLASH && p[|p| - 1] != SLASH)
    && (forall i :: 0 <= i < |p| - 1 ==> !(p[i] == SLASH && p[i + 1] == SLASH))
  }

  lemma {:induction false} EndedRegular(ws: seq<Path>)
    requires AllWords(ws)
    ensures Ended(ws) != [] ==> Ended(ws)[0] != SLASH && Ended(ws)[|Ended(ws)| - 1] == SLASH
    ensures forall i :: 0 <= i < |Ended(ws)| - 1 ==> !(Ended(ws)[i] == SLASH && Ended(ws)[i + 1] == SLASH)
    ensures |Ended(ws)| > 1 ==> Ended(ws)[|Ended(ws)| - 2] != SLASH
  {
    if ws != [] {
      var n := |ws| - 1;
      EndedRegular(ws[..n]);
      var e, w := Ended(ws[..n]), ws[n];
      assert Ended(ws) == e + w + [SLASH];
      assert Word(w) && w[0] != SLASH && w[|w| - 1] != SLASH;
    }
  }

  lemma RegularResult(p: Path)
    ensures Regular(Joined(Words(p)))
  {
    WordsAreWords(p);
    EndedRegular(Words(p));
  }

  // ----- nothing but slashes is dropped -----

  /** The bytes that are not slashes. */
  function Letters(p: Path): Path {
    if p == [] then [] else Letters(p[..|p| - 1]) + if p[|p| - 1] == SLASH then [] else [p[|p| - 1]]
  }

  lemma {:induction false} LettersConcat(a: Path, b: Path)
    ensures Letters(a + b) == Letters(a) + Letters(b)
  {
    if b == [] {
      assert a + b == a;
    } else {
      var n := |b| - 1;
      assert (a + b)[..|a + b| - 1] == a + b[..n] && (a + b)[|a + b| - 1] == b[n];
      LettersConcat(a, b[..n]);
    }
  }

  lemma LettersOne(c: Byte)
    ensures Letters([c]) == if c == SLASH then [] else [c]
  {
    assert [c][..0] == [];
  }

  /** Scanning keeps every byte that is not a slash. */
  lemma {:induction false} ScanLetters(p: Path)
    ensures Letters(Ended(Scanned(p).done) + Scanned(p).cur) == Letters(p)
  {
    if p == [] {
      EndedNone();
      assert Scanned(p) == Scan([], []) && Ended([]) + [] == p;
    } else {
      hide Letters, Ended;
      var n := |p| - 1;
      ScanLetters(p[..n]);
      LettersKept(p);
      StepLetters(Scanned(p[..n]), p[n]);
    }
  }

  lemma StepLetters(s: Scan, c: Byte)
    ensures var t := Step(s, c);
            Letters(Ended(t.done) + t.cur) == Letters(Ended(s.done) + s.cur) + if c == SLASH then [] else [c]
  {
    hide Letters, Ended;
    var e := Ended(s.done) + s.cur;
    LettersOne(c);
    LettersConcat(e, [c]);
    if c != SLASH {
      assert Ended(s.done) + (s.cur + [c]) == e + [c];
    } else if s.cur != [] {
      EndedSnoc(s.done, s.cur);
      assert Ended(s.done + [s.cur]) + [] == e + [SLASH];
    } else {
      assert Letters(e) + [] == Letters(e);
    }
  }

  lemma LettersKept(p: Path)
    requires p != []
    ensures Letters(p) == Letters(p[..|p| - 1]) + if p[|p| - 1] == SLASH then [] else [p[|p| - 1]]
  {
  }

  /** The regular form has the bytes of the path that are not slashes, in order. */
  lemma RegularKeepsLetters(p: Path)
    ensures Letters(Joined(Words(p))) == Letters(p)
  {
    var s := Scanned(p);
    ScanLetters(p);
    ScannedWords(p);
    var res := Ended(s.done) + s.cur;
    CutSlash(s, res);
    hide Letters, Ended, Joined, Scanned;
    if |res| > 0 && res[|res| - 1] == SLASH {
      LettersKept(res);
    }
  }
}
