/** Topic patterns: `*` stands for one word, `#` for any number of words, words separated by dots
    (section 3.1.3.3 of AMQP 0-9-1). */
module TopicMatch {
  import opened Sequences

  // ---- words ----

  /** The words of a key: the pieces between the dots, at least one. */
  ghost function Words(s: string): (w: seq<string>)
    ensures |w| >= 1
    decreases |s|
  {
    if s == "" then [""]
    else
      var rest := Words(s[1..]);
      if s[0] == '.' then [""] + rest else [[s[0]] + rest[0]] + rest[1..]
  }

  ghost function Join(w: seq<string>): (s: string)
    requires |w| >= 1
  {
    if |w| == 1 then w[0] else w[0] + "." + Join(w[1..])
  }

  ghost predicate DotFree(w: seq<string>) {
    forall i :: 0 <= i < |w| ==> '.' !in w[i]
  }

  /** Splitting and joining undo each other, and no word holds a dot. */
  lemma {:induction false} WordsJoin(s: string)
    ensures Join(Words(s)) == s && DotFree(Words(s))
    decreases |s|
  {
    if s != "" {
      WordsJoin(s[1..]);
      var rest := Words(s[1..]);
      if s[0] == '.' {
        assert ([""] + rest)[1..] == rest;
        assert Join(Words(s)) == "" + "." + s[1..] == s;
      } else {
        var w := [[s[0]] + rest[0]] + rest[1..];
        assert w[1..] == rest[1..];
        assert Join(w) == [s[0]] + Join(rest) == s;
      }
    }
  }

  /** A dot-free word list is recovered from its joined form. */
  lemma {:induction false} JoinWords(w: seq<string>)
    requires |w| >= 1 && DotFree(w)
    ensures Words(Join(w)) == w
    decreases |w|, |w[0]|
  {
    if w[0] == "" {
      if |w| > 1 {
        JoinWords(w[1..]);
        assert Join(w)[1..] == Join(w[1..]);
        assert [""] + w[1..] == w;
      }
    } else {
      var shorter := [w[0][1..]] + w[1..];
      assert shorter[1..] == w[1..];
      JoinWords(shorter);
      assert Join(w) == [w[0][0]] + Join(shorter);
      assert Join(w)[1..] == Join(shorter);
      assert [w[0][0]] + w[0][1..] == w[0];
      assert [w[0]] + w[1..] == w;
    }
  }

  /** Prepending a dot-free run of characters only lengthens the first word. */
  lemma {:induction false} RunPrefix(run: string, s: string)
    requires '.' !in run
    ensures Words(run + s) == [run + Words(s)[0]] + Words(s)[1..]
    decreases |run|
  {
    if run == "" {
      assert run + s == s;
      assert run + Words(s)[0] == Words(s)[0];
      assert [Words(s)[0]] + Words(s)[1..] == Words(s);
    } else {
      RunPrefix(run[1..], s);
      assert (run + s)[1..] == run[1..] + s;
      assert [run[0]] + (run[1..] + Words(s)[0]) == run + Words(s)[0];
    }
  }

  /** The splitting loop: cut at each dot and at the end of the text. */
  method SplitWords(s: string) returns (words: seq<string>)
    ensures words == Words(s)
  {
    words := [];
    var start, p := 0, 0;
    while p < |s|
      invariant 0 <= start <= p <= |s|
      invariant '.' !in s[start..p]
      invariant words + Words(s[start..]) == Words(s)
      decreases |s| - p
    {
      if s[p] == '.' {
        assert s[start..] == s[start..p] + s[p..] && s[p..][1..] == s[p + 1..];
        RunPrefix(s[start..p], s[p..]);
        assert s[start..p] + "" == s[start..p];
        assert Words(s[start..]) == [s[start..p]] + Words(s[p + 1..]);
        words := words + [s[start..p]];
        start := p + 1;
      }
      p := p + 1;
    }
    assert s[start..] == s[start..p] + "";
    RunPrefix(s[start..p], "");
    words := words + [s[start..]];
  }

  // ---- meaning ----

  /** Whether one pattern word can stand for a run of key words. */
  predicate Fits(p: string, run: seq<string>) {
    p == "#" || (|run| == 1 && (p == "*" || p == run[0]))
  }

  /** Some division of the key's words among the pattern's words satisfies every pattern word. */
  ghost predicate Divides(pat: seq<string>, key: seq<string>, parts: seq<seq<string>>) {
    && |parts| == |pat| && Flatten(parts) == key
    && forall i :: 0 <= i < |pat| ==> Fits(pat[i], parts[i])
  }

  ghost predicate Meaning(pat: seq<string>, key: seq<string>) {
    exists parts :: Divides(pat, key, parts)
  }

  lemma MeaningNil(key: seq<string>)
    ensures Meaning([], key) <==> key == []
  {
    if key == [] {
      assert Divides([], key, []);
    }
  }

  /** A pattern matches exactly when its first word takes some prefix of the key and the rest takes the rest. */
  lemma MeaningCons(pat: seq<string>, key: seq<string>)
    requires pat != []
    ensures Meaning(pat, key) <==> exists k :: 0 <= k <= |key| && Fits(pat[0], key[..k]) && Meaning(pat[1..], key[k..])
  {
    if Meaning(pat, key) {
      var parts :| Divides(pat, key, parts);
      var k := |parts[0]|;
      assert key[..k] == parts[0] && key[k..] == Flatten(parts[1..]);
      assert Divides(pat[1..], key[k..], parts[1..]);
    }
    if k :| 0 <= k <= |key| && Fits(pat[0], key[..k]) && Meaning(pat[1..], key[k..]) {
      var parts :| Divides(pat[1..], key[k..], parts);
      var all := [key[..k]] + parts;
      assert all[1..] == parts && key[..k] + key[k..] == key;
      forall i | 0 <= i < |pat| ensures Fits(pat[i], all[i]) {
        if i > 0 { assert pat[i] == pat[1..][i - 1]; }
      }
      assert Divides(pat, key, all);
    }
  }

  /** The meaning of the pattern from word `pi` on the key from word `ki`. */
  ghost predicate From(pat: seq<string>, key: seq<string>, pi: nat, ki: nat)
    requires pi <= |pat| && ki <= |key|
  {
    Meaning(pat[pi..], key[ki..])
  }

  /** The meaning once pattern word `pi` has been used up. */
  ghost predicate Beyond(pat: seq<string>, key: seq<string>, pi: nat, ki: nat)
    requires pi < |pat| && ki <= |key|
  {
    From(pat, key, pi + 1, ki)
  }

  lemma FromEnd(pat: seq<string>, key: seq<string>, ki: nat)
    requires ki <= |key|
    ensures From(pat, key, |pat|, ki) <==> ki == |key|
  {
    assert pat[|pat|..] == [];
    MeaningNil(key[ki..]);
  }

  lemma FromHash(pat: seq<string>, key: seq<string>, pi: nat, ki: nat)
    requires pi < |pat| && ki <= |key| && pat[pi] == "#"
    ensures From(pat, key, pi, ki) <==> exists k :: ki <= k <= |key| && Beyond(pat, key, pi, k)
  {
    var p, t := pat[pi..], key[ki..];
    assert p[1..] == pat[pi + 1..];
    MeaningCons(p, t);
    if k :| 0 <= k <= |t| && Fits(p[0], t[..k]) && Meaning(p[1..], t[k..]) {
      assert t[k..] == key[ki + k..];
      assert Beyond(pat, key, pi, ki + k);
    }
    if k :| ki <= k <= |key| && Beyond(pat, key, pi, k) {
      assert t[k - ki..] == key[k..];
      assert Fits(p[0], t[..k - ki]) && Meaning(p[1..], t[k - ki..]);
    }
  }

  lemma FromWord(pat: seq<string>, key: seq<string>, pi: nat, ki: nat)
    requires pi < |pat| && ki <= |key| && pat[pi] != "#"
    ensures From(pat, key, pi, ki) <==>
              ki < |key| && (pat[pi] == "*" || pat[pi] == key[ki]) && From(pat, key, pi + 1, ki + 1)
  {
    var p, t := pat[pi..], key[ki..];
    assert p[1..] == pat[pi + 1..];
    MeaningCons(p, t);
    if k :| 0 <= k <= |t| && Fits(p[0], t[..k]) && Meaning(p[1..], t[k..]) {
      assert k == 1 && t[..k][0] == key[ki];
      assert t[k..] == key[ki + 1..];
    }
    if ki < |key| && (pat[pi] == "*" || pat[pi] == key[ki]) && From(pat, key, pi + 1, ki + 1) {
      assert t[1..] == key[ki + 1..] && t[..1] == [key[ki]];
      assert Fits(p[0], t[..1]) && Meaning(p[1..], t[1..]);
    }
  }

  // ---- the memoised matcher ----

  /** How many cells of the memo table hold an answer. */
  ghost function Answered(cells: seq<int>): (n: nat)
    ensures n <= |cells|
  {
    if cells == [] then 0 else (if cells[0] >= 0 then 1 else 0) + Answered(cells[1..])
  }

  lemma {:induction false} AnsweredUpdate(cells: seq<int>, i: nat, v: int)
    requires i < |cells| && cells[i] < 0 && v >= 0
    ensures Answered(cells[i := v]) == Answered(cells) + 1
  {
    if i > 0 {
      AnsweredUpdate(cells[1..], i - 1, v);
      assert cells[i := v][1..] == cells[1..][i - 1 := v];
    } else {
      assert cells[i := v][1..] == cells[1..];
    }
  }

  lemma {:induction false} AnsweredNone(cells: seq<int>)
    requires forall i :: 0 <= i < |cells| ==> cells[i] == -1
    ensures Answered(cells) == 0
  {
    if cells != [] { AnsweredNone(cells[1..]); }
  }

  /** The cell of a position: rows of `nk + 1` cells. */
  function Cell(nk: nat, pi: nat, ki: nat): (c: nat) {
    pi * (nk + 1) + ki
  }

  lemma CellInRange(np: nat, nk: nat, pi: nat, ki: nat)
    requires pi <= np && ki <= nk
    ensures pi * (nk + 1) <= Cell(nk, pi, ki) < (pi + 1) * (nk + 1) <= (np + 1) * (nk + 1)
  {
    assert (pi + 1) * (nk + 1) == pi * (nk + 1) + (nk + 1);
    assert (np - pi) * (nk + 1) >= 0;
    assert (np + 1) * (nk + 1) == (pi + 1) * (nk + 1) + (np - pi) * (nk + 1);
  }

  lemma RowsApart(nk: nat, pi: nat, qi: nat)
    requires pi < qi
    ensures (pi + 1) * (nk + 1) <= qi * (nk + 1)
  {
    assert qi * (nk + 1) == (pi + 1) * (nk + 1) + (qi - pi - 1) * (nk + 1);
    assert (qi - pi - 1) * (nk + 1) >= 0;
  }

  /** Every cell is unanswered or holds the meaning at its position. */
  ghost predicate Sound(pat: seq<string>, key: seq<string>, cells: seq<int>) {
    && |cells| == (|pat| + 1) * (|key| + 1)
    && forall pi, ki :: 0 <= pi <= |pat| && 0 <= ki <= |key| ==> CellSound(pat, key, cells, pi, ki)
  }

  ghost predicate CellSound(pat: seq<string>, key: seq<string>, cells: seq<int>, pi: nat, ki: nat)
    requires pi <= |pat| && ki <= |key| && |cells| == (|pat| + 1) * (|key| + 1)
  {
    CellInRange(|pat|, |key|, pi, ki);
    var v := cells[Cell(|key|, pi, ki)];
    v == -1 || (v == 1 && From(pat, key, pi, ki)) || (v == 0 && !From(pat, key, pi, ki))
  }

  lemma DistinctCells(nk: nat, pi: nat, ki: nat, qi: nat, kj: nat)
    requires ki <= nk && kj <= nk && Cell(nk, pi, ki) == Cell(nk, qi, kj)
    ensures pi == qi && ki == kj
  {
    if pi < qi { RowsApart(nk, pi, qi); }
    if qi < pi { RowsApart(nk, qi, pi); }
  }

  lemma SoundUpdate(pat: seq<string>, key: seq<string>, cells: seq<int>, pi: nat, ki: nat, r: bool)
    requires Sound(pat, key, cells) && pi <= |pat| && ki <= |key| && r == From(pat, key, pi, ki)
    requires Cell(|key|, pi, ki) < |cells|
    ensures Sound(pat, key, cells[Cell(|key|, pi, ki) := if r then 1 else 0])
  {
    var after := cells[Cell(|key|, pi, ki) := if r then 1 else 0];
    forall qi, kj | 0 <= qi <= |pat| && 0 <= kj <= |key| ensures CellSound(pat, key, after, qi, kj) {
      assert CellSound(pat, key, cells, qi, kj);
      CellInRange(|pat|, |key|, qi, kj);
      if Cell(|key|, qi, kj) == Cell(|key|, pi, ki) { DistinctCells(|key|, pi, ki, qi, kj); }
    }
  }

  /** The memo table of one match, with the number of cells computed so far. */
  class Memo {
    const pat: seq<string>
    const key: seq<string>
    const cells: array<int>
    var computed: nat

    ghost predicate Valid() reads this, cells {
      Sound(pat, key, cells[..]) && computed == Answered(cells[..])
    }

    constructor (p: seq<string>, k: seq<string>)
      ensures pat == p && key == k && Valid() && fresh(cells) && computed == 0
    {
      pat, key := p, k;
      cells := new int[(|p| + 1) * (|k| + 1)](_ => -1);
      computed := 0;
      new;
      AnsweredNone(cells[..]);
      forall pi, ki | 0 <= pi <= |pat| && 0 <= ki <= |key| ensures CellSound(pat, key, cells[..], pi, ki) {
        CellInRange(|pat|, |key|, pi, ki);
      }
    }

    /** Answers the match from one position, filling only the cells of later rows and its own cell. */
    method MatchTokens(pi: nat, ki: nat) returns (r: bool)
      requires Valid() && pi <= |pat| && ki <= |key|
      modifies cells, this`computed
      ensures Valid() && r == From(pat, key, pi, ki)
      ensures forall c :: 0 <= c < cells.Length && c < pi * (|key| + 1) ==> cells[c] == old(cells[c])
      ensures forall c :: pi * (|key| + 1) <= c < (pi + 1) * (|key| + 1) && c < cells.Length && c != Cell(|key|, pi, ki)
                ==> cells[c] == old(cells[c])
      ensures old(computed) <= computed <= cells.Length
      decreases |pat| - pi
    {
      CellInRange(|pat|, |key|, pi, ki);
      var slot := Cell(|key|, pi, ki);
      assert CellSound(pat, key, cells[..], pi, ki);
      if cells[slot] >= 0 {
        return cells[slot] == 1;
      }
      r := Compute(pi, ki);
      AnsweredUpdate(cells[..], slot, if r then 1 else 0);
      SoundUpdate(pat, key, cells[..], pi, ki, r);
      ghost var before := cells[..];
      cells[slot] := if r then 1 else 0;
      assert cells[..] == before[slot := if r then 1 else 0];
      computed := computed + 1;
    }

    /** The answer for a position whose cell is still open; only later rows are filled. */
    method Compute(pi: nat, ki: nat) returns (r: bool)
      requires Valid() && pi <= |pat| && ki <= |key|
      modifies cells, this`computed
      ensures Valid() && r == From(pat, key, pi, ki)
      ensures forall c :: 0 <= c < cells.Length && c < (pi + 1) * (|key| + 1) ==> cells[c] == old(cells[c])
      ensures old(computed) <= computed
      decreases |pat| - pi, 0
    {
      if pi == |pat| {
        FromEnd(pat, key, ki);
        r := ki == |key|;
      } else if pat[pi] == "#" {
        r := SearchTail(pi, ki);
      } else {
        FromWord(pat, key, pi, ki);
        if ki == |key| {
          r := false;
        } else if pat[pi] == "*" || pat[pi] == key[ki] {
          r := MatchTokens(pi + 1, ki + 1);
        } else {
          r := false;
        }
      }
    }

    /** The `#` loop: try every number of words from none upwards until the rest matches. */
    method SearchTail(pi: nat, ki: nat) returns (r: bool)
      requires Valid() && pi < |pat| && ki <= |key| && pat[pi] == "#"
      modifies cells, this`computed
      ensures Valid() && r == From(pat, key, pi, ki)
      ensures forall c :: 0 <= c < cells.Length && c < (pi + 1) * (|key| + 1) ==> cells[c] == old(cells[c])
      ensures old(computed) <= computed
      decreases |pat| - pi, 0, 0
    {
      FromHash(pat, key, pi, ki);
      hide Sound, Answered, Meaning;
      var k := ki;
      while k <= |key|
        invariant Valid() && ki <= k <= |key| + 1
        invariant forall j :: ki <= j < k ==> !Beyond(pat, key, pi, j)
        invariant forall c :: 0 <= c < cells.Length && c < (pi + 1) * (|key| + 1) ==> cells[c] == old(cells[c])
        invariant old(computed) <= computed
      {
        var hit := MatchTokens(pi + 1, k);
        assert hit == Beyond(pat, key, pi, k);
        if hit { return true; }
        k := k + 1;
      }
      r := false;
    }
  }

  /** The whole match agrees with the meaning, and fills at most one cell per pair of positions. */
  method TopicMatches(pattern: string, key: string) returns (r: bool, computed: nat)
    ensures r == Meaning(Words(pattern), Words(key))
    ensures computed <= (|Words(pattern)| + 1) * (|Words(key)| + 1)
  {
    var pw := SplitWords(pattern);
    var kw := SplitWords(key);
    var memo := new Memo(pw, kw);
    r := memo.MatchTokens(0, 0);
    computed := memo.computed;
    assert pw[0..] == pw && kw[0..] == kw;
  }
}
