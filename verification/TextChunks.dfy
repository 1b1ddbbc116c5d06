/** Cutting a text into pieces of at most so many words. */
module TextChunks {
  import opened Basics

  /** What Python's `split` takes for white space. */
  predicate IsSpace(c: char) {
    var n := c as int;
    || 9 <= n <= 13 || 28 <= n <= 32 || n == 0x85 || n == 0xA0 || n == 0x1680 || 0x2000 <= n <= 0x200A
    || n == 0x2028 || n == 0x2029 || n == 0x202F || n == 0x205F || n == 0x3000
  }

  predicate IsWord(w: string) { w != "" && forall i :: 0 <= i < |w| ==> !IsSpace(w[i]) }

  function SplitFrom(s: string, current: string): seq<string> {
    if s == "" then (if current == "" then [] else [current])
    else if IsSpace(s[0]) then (if current == "" then [] else [current]) + SplitFrom(s[1..], "")
    else SplitFrom(s[1..], current + [s[0]])
  }

  function Words(s: string): seq<string> { SplitFrom(s, "") }

  function Join(words: seq<string>): string {
    if words == [] then "" else if |words| == 1 then words[0] else words[0] + " " + Join(words[1..])
  }

  lemma {:induction false} SplitsIntoWords(s: string, current: string)
    requires current == "" || IsWord(current)
    ensures forall i :: 0 <= i < |SplitFrom(s, current)| ==> IsWord(SplitFrom(s, current)[i])
    decreases |s|
  {
    if s != "" {
      if IsSpace(s[0]) { SplitsIntoWords(s[1..], ""); } else { SplitsIntoWords(s[1..], current + [s[0]]); }
    }
  }

  lemma {:induction false} TakesWord(w: string, rest: string, current: string)
    requires forall i :: 0 <= i < |w| ==> !IsSpace(w[i])
    ensures SplitFrom(w + rest, current) == SplitFrom(rest, current + w)
    decreases |w|
  {
    if w == "" {
      assert w + rest == rest && current + w == current;
    } else {
      assert (w + rest)[1..] == w[1..] + rest;
      TakesWord(w[1..], rest, current + [w[0]]);
      assert current + [w[0]] + w[1..] == current + w;
    }
  }

  /** Splitting undoes joining. */
  lemma {:induction false} WordsOfJoin(words: seq<string>)
    requires forall i :: 0 <= i < |words| ==> IsWord(words[i])
    ensures Words(Join(words)) == words
    decreases |words|
  {
    if words != [] {
      var w := words[0];
      if |words| == 1 {
        TakesWord(w, "", "");
        assert w + "" == w && "" + w == w;
      } else {
        var rest := Join(words[1..]);
        assert Join(words) == w + (" " + rest);
        TakesWord(w, " " + rest, "");
        assert "" + w == w && (" " + rest)[1..] == rest;
        WordsOfJoin(words[1..]);
        assert words == [w] + words[1..];
      }
    }
  }

  function PiecesFrom(words: seq<string>, i: nat, maxWords: nat): seq<string>
    requires maxWords > 0
    decreases |words| - i
  {
    if i >= |words| then []
        else [Join(words[i..Min(i + maxWords, |words|)])] + PiecesFrom(words, i + maxWords, maxWords)
  }

  function ChunkText(cleaned: string, maxWords: nat): seq<string>
    requires maxWords > 0
  {
    var words := Words(cleaned);
    if |words| <= maxWords then [cleaned] else PiecesFrom(words, 0, maxWords)
  }

  function AllWords(chunks: seq<string>): seq<string> {
    if chunks == [] then [] else Words(chunks[0]) + AllWords(chunks[1..])
  }

  /** No piece is empty or over the limit, and all but the last are full. */
  ghost predicate WellCut(pieces: seq<string>, maxWords: nat) {
    forall k :: 0 <= k < |pieces| ==>
      0 < |Words(pieces[k])| <= maxWords && (k < |pieces| - 1 ==> |Words(pieces[k])| == maxWords)
  }

  lemma CutOneMore(piece: string, rest: seq<string>, maxWords: nat)
    requires WellCut(rest, maxWords) && 0 < |Words(piece)| <= maxWords
    requires rest != [] ==> |Words(piece)| == maxWords
    ensures WellCut([piece] + rest, maxWords) && AllWords([piece] + rest) == Words(piece) + AllWords(rest)
  {
    hide Words;
    var pieces := [piece] + rest;
    assert pieces[1..] == rest;
    forall k | 0 <= k < |pieces|
      ensures 0 < |Words(pieces[k])| <= maxWords && (k < |pieces| - 1 ==> |Words(pieces[k])| == maxWords)
    {
      if k > 0 { assert pieces[k] == rest[k - 1]; }
    }
  }

  lemma {:induction false} PiecesCover(words: seq<string>, i: nat, maxWords: nat)
    requires maxWords > 0 && i <= |words| && forall k :: 0 <= k < |words| ==> IsWord(words[k])
    ensures var pieces := PiecesFrom(words, i, maxWords);
            AllWords(pieces) == words[i..] && WellCut(pieces, maxWords)
    decreases |words| - i
  {
    hide SplitFrom, Words, Join, WellCut, AllWords;
    if i < |words| {
      var end := Min(i + maxWords, |words|);
      WordsOfJoin(words[i..end]);
      var rest := PiecesFrom(words, i + maxWords, maxWords);
      assert words[i..] == words[i..end] + words[end..];
      if i + maxWords < |words| {
        PiecesCover(words, i + maxWords, maxWords);
      } else {
        NothingCut(maxWords);
        assert rest == [] && words[end..] == [];
      }
      CutOneMore(Join(words[i..end]), rest, maxWords);
    } else {
      NothingCut(maxWords);
    }
  }

  lemma NothingCut(maxWords: nat)
    ensures WellCut([], maxWords) && AllWords([]) == []
  {
  }

  /** Words are joined by one blank. */
  lemma {:induction false} JoinSplits(a: seq<string>, b: seq<string>)
    requires a != [] && b != []
    ensures Join(a + b) == Join(a) + " " + Join(b) && Join([a[0]]) == a[0]
    decreases |a|
  {
    assert (a + b)[0] == a[0] && (a + b)[1..] == a[1..] + b;
    if |a| > 1 {
      JoinSplits(a[1..], b);
      assert a[0] + " " + (Join(a[1..]) + " " + Join(b)) == a[0] + " " + Join(a[1..]) + " " + Join(b);
    } else {
      assert a[1..] + b == b;
    }
  }

  ghost predicate SinglySpaced(piece: string) { piece == Join(Words(piece)) }

  lemma {:induction false} PiecesJoined(words: seq<string>, i: nat, maxWords: nat)
    requires maxWords > 0 && i <= |words| && forall k :: 0 <= k < |words| ==> IsWord(words[k])
    ensures forall k :: 0 <= k < |PiecesFrom(words, i, maxWords)| ==> SinglySpaced(PiecesFrom(words, i, maxWords)[k])
    decreases |words| - i
  {
    hide SinglySpaced;
    if i < |words| {
      JoinIsSinglySpaced(words[i..Min(i + maxWords, |words|)]);
      if i + maxWords <= |words| { PiecesJoined(words, i + maxWords, maxWords); }
    }
  }

  lemma JoinIsSinglySpaced(words: seq<string>)
    requires forall k :: 0 <= k < |words| ==> IsWord(words[k])
    ensures SinglySpaced(Join(words))
  {
    WordsOfJoin(words);
  }

  /** Chunks hold the words of the text, all of them and in order; none has more
      than the limit, and none but the last has fewer when there are several. A
      text within the limit is left as it is; the pieces of a longer one are words
      joined by blanks. */
  lemma ChunkTextCovers(cleaned: string, maxWords: nat)
    requires maxWords > 0
    ensures var chunks := ChunkText(cleaned, maxWords);
            && chunks != [] && AllWords(chunks) == Words(cleaned)
            && (forall k :: 0 <= k < |chunks| ==>
                 |Words(chunks[k])| <= maxWords && (k < |chunks| - 1 ==> |Words(chunks[k])| == maxWords))
            && if |Words(cleaned)| <= maxWords then chunks == [cleaned]
               else forall k :: 0 <= k < |chunks| ==> SinglySpaced(chunks[k])
  {
    SplitsIntoWords(cleaned, "");
    var words := Words(cleaned);
    if |words| > maxWords {
      PiecesJoined(words, 0, maxWords);
      PiecesCover(words, 0, maxWords);
      assert words[0..] == words;
    } else {
      assert AllWords([cleaned]) == Words(cleaned) + AllWords([]);
    }
  }
}
