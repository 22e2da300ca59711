/** Greedy line wrapping (evident-whitepaper/src/main.rs). Lengths are in bytes, as in the source. */
module WrapLine {
  import opened Text

  // How many further words fit behind a line of the given length.
  function Fill(len: nat, ws: seq<string>, max: nat): (n: nat)
    ensures n <= |ws|
    decreases |ws|
  {
    if ws == [] || len + 1 + |ws[0]| > max then 0 else 1 + Fill(len + 1 + |ws[0]|, ws[1..], max)
  }

  // The number of words on the first line.
  function First(ws: seq<string>, max: nat): (n: nat)
    requires ws != []
    ensures 1 <= n <= |ws|
  {
    1 + Fill(|ws[0]|, ws[1..], max)
  }

  // The lines as groups of words.
  function Groups(ws: seq<string>, max: nat): seq<seq<string>>
    decreases |ws|
  {
    if ws == [] then [] else [ws[..First(ws, max)]] + Groups(ws[First(ws, max)..], max)
  }

  function JoinAll(groups: seq<seq<string>>): (lines: seq<string>)
    ensures |lines| == |groups|
  {
    seq(|groups|, i requires 0 <= i < |groups| => Join(groups[i]))
  }

  function Flatten(groups: seq<seq<string>>): seq<string> {
    if groups == [] then [] else groups[0] + Flatten(groups[1..])
  }

  function WordsOfLines(lines: seq<string>): seq<string> {
    if lines == [] then [] else Words(lines[0]) + WordsOfLines(lines[1..])
  }

  // ---------------------------------------------------------------- the loop

  // The lines that the loop still produces with `current` begun and the words `ws` to come.
  function Remaining(current: string, ws: seq<string>, max: nat): seq<string>
    decreases |ws|
  {
    if ws == [] then (if current == "" then [] else [current])
    else if current == "" then Remaining(ws[0], ws[1..], max)
    else if |current| + 1 + |ws[0]| <= max then Remaining(current + " " + ws[0], ws[1..], max)
    else [current] + Remaining(ws[0], ws[1..], max)
  }

  function Wrapped(line: string, max: nat): seq<string> {
    if Words(line) == [] then [""] else JoinAll(Groups(Words(line), max))
  }

  method Wrap(line: string, max: nat) returns (result: seq<string>)
    ensures result == Wrapped(line, max)
  {
    result := [];
    var current := "";
    var words := Words(line);
    WordsAreWords(line);
    assert forall i | 0 <= i < |words| :: words[i] in words;
    for i := 0 to |words|
      invariant result + Remaining(current, words[i..], max) == Remaining("", words, max)
      invariant current == "" <==> i == 0
      invariant current == "" ==> result == []
    {
      var word := words[i];
      assert word in words && words[i..][0] == word && words[i..][1..] == words[i + 1..];
      if current == "" {
        current := word;
      } else if |current| + 1 + |word| <= max {
        current := current + " " + word;
      } else {
        assert result + ([current] + Remaining(word, words[i + 1..], max))
          == result + [current] + Remaining(word, words[i + 1..], max);
        result := result + [current];
        current := word;
      }
    }
    if current != "" {
      result := result + [current];
    }
    RemainingIsGroups(words, max);
    if result == [] {
      result := [""];
    }
  }

  // ---------------------------------------------------------------- the loop makes the groups

  // A line with further words behind it.
  function Extend(current: string, more: seq<string>): string
    decreases |more|
  {
    if more == [] then current else Extend(current + " " + more[0], more[1..])
  }

  lemma {:induction false} ExtendIsJoin(before: string, w: string, more: seq<string>)
    ensures Extend(before + w, more) == before + Join([w] + more)
    decreases |more|
  {
    if more == [] {
      assert [w] + more == [w];
    } else {
      ExtendIsJoin(before + w + " ", more[0], more[1..]);
      assert ([w] + more)[1..] == more && more == [more[0]] + more[1..];
      assert before + w + " " + more[0] == (before + w + " ") + more[0];
      assert before + w + " " + Join(more) == before + (w + " " + Join(more));
    }
  }

  predicate NoneEmpty(ws: seq<string>) {
    forall i | 0 <= i < |ws| :: ws[i] != ""
  }

  // The current line takes as many words as fit; the others start a new one.
  lemma {:induction false} RemainingFills(current: string, ws: seq<string>, max: nat)
    requires current != "" && NoneEmpty(ws)
    ensures var n := Fill(|current|, ws, max);
      Remaining(current, ws, max) == [Extend(current, ws[..n])] + Remaining("", ws[n..], max)
    decreases |ws|
  {
    var n := Fill(|current|, ws, max);
    if ws == [] {
    } else if |current| + 1 + |ws[0]| <= max {
      RemainingFills(current + " " + ws[0], ws[1..], max);
      assert ws[..n][1..] == ws[1..][..n - 1] && ws[n..] == ws[1..][n - 1..];
    } else {
      assert ws[..0] == [] && ws[0..] == ws;
    }
  }

  lemma FirstLine(ws: seq<string>, n: nat)
    requires 1 <= n <= |ws|
    ensures Extend(ws[0], ws[1..][..n - 1]) == Join(ws[..n]) && ws[1..][n - 1..] == ws[n..]
  {
    ExtendIsJoin("", ws[0], ws[1..][..n - 1]);
    assert "" + ws[0] == ws[0] && [ws[0]] + ws[1..][..n - 1] == ws[..n];
    assert "" + Join(ws[..n]) == Join(ws[..n]);
  }

  lemma JoinFirst(group: seq<string>, groups: seq<seq<string>>)
    ensures JoinAll([group] + groups) == [Join(group)] + JoinAll(groups)
  {
  }

  lemma {:induction false} RemainingIsGroups(ws: seq<string>, max: nat)
    requires NoneEmpty(ws)
    ensures Remaining("", ws, max) == JoinAll(Groups(ws, max))
    decreases |ws|
  {
    if ws != [] {
      var n := First(ws, max);
      RemainingFills(ws[0], ws[1..], max);
      RemainingIsGroups(ws[n..], max);
      FirstLine(ws, n);
      JoinFirst(ws[..n], Groups(ws[n..], max));
    }
  }

  // ---------------------------------------------------------------- the words

  lemma {:induction false} GroupsKeepWords(ws: seq<string>, max: nat)
    ensures Flatten(Groups(ws, max)) == ws
    decreases |ws|
  {
    if ws != [] {
      var n := First(ws, max);
      GroupsKeepWords(ws[n..], max);
      assert ws == ws[..n] + ws[n..];
    }
  }

  predicate AllWords(ws: seq<string>) {
    forall i | 0 <= i < |ws| :: IsWord(ws[i])
  }

  lemma {:induction false} WordsOfJoined(groups: seq<seq<string>>)
    requires forall i | 0 <= i < |groups| :: AllWords(groups[i])
    ensures WordsOfLines(JoinAll(groups)) == Flatten(groups)
    decreases |groups|
  {
    if groups != [] {
      WordsOfJoined(groups[1..]);
      assert AllWords(groups[0]);
      WordsOfJoin(groups[0]);
      assert JoinAll(groups)[1..] == JoinAll(groups[1..]);
    }
  }

  lemma {:induction false} GroupsHaveWords(ws: seq<string>, max: nat)
    requires AllWords(ws)
    ensures forall i | 0 <= i < |Groups(ws, max)| :: AllWords(Groups(ws, max)[i]) && Groups(ws, max)[i] != []
    decreases |ws|
  {
    if ws != [] { GroupsHaveWords(ws[First(ws, max)..], max); }
  }

  lemma WordsAreAllWords(line: string)
    ensures AllWords(Words(line))
  {
    WordsAreWords(line);
    assert forall i | 0 <= i < |Words(line)| :: Words(line)[i] in Words(line);
  }

  // Main result: wrapping keeps the words of the line, in order.
  lemma WrappingKeepsWords(line: string, max: nat)
    ensures WordsOfLines(Wrapped(line, max)) == Words(line)
  {
    var ws := Words(line);
    if ws == [] {
      assert WordsOfLines([""]) == Words("") + WordsOfLines([]);
    } else {
      WordsAreAllWords(line);
      GroupsHaveWords(ws, max);
      WordsOfJoined(Groups(ws, max));
      GroupsKeepWords(ws, max);
    }
  }

  // ---------------------------------------------------------------- the widths

  lemma {:induction false} FillFits(current: string, ws: seq<string>, max: nat)
    ensures var n := Fill(|current|, ws, max); n > 0 ==> |Extend(current, ws[..n])| <= max
    decreases |ws|
  {
    var n := Fill(|current|, ws, max);
    if n > 0 {
      FillFits(current + " " + ws[0], ws[1..], max);
      assert ws[..n][1..] == ws[1..][..n - 1];
    }
  }

  predicate GroupFits(group: seq<string>, max: nat) {
    |Join(group)| <= max || |group| == 1
  }

  lemma FirstFits(ws: seq<string>, max: nat)
    requires ws != []
    ensures GroupFits(ws[..First(ws, max)], max)
  {
    FillFits(ws[0], ws[1..], max);
    FirstLine(ws, First(ws, max));
  }

  lemma {:induction false} GroupsFit(ws: seq<string>, max: nat)
    ensures forall i | 0 <= i < |Groups(ws, max)| :: GroupFits(Groups(ws, max)[i], max)
    decreases |ws|
  {
    if ws != [] {
      FirstFits(ws, max);
      GroupsFit(ws[First(ws, max)..], max);
    }
  }

  predicate Fits(line: string, max: nat) {
    |line| <= max || |Words(line)| == 1
  }

  // Main result: every line fits or is a single word.
  lemma WrappingFits(line: string, max: nat, i: nat)
    requires i < |Wrapped(line, max)|
    ensures Fits(Wrapped(line, max)[i], max)
    ensures |Wrapped(line, max)[i]| > max ==> IsWord(Wrapped(line, max)[i])
  {
    var ws := Words(line);
    if ws != [] {
      WordsAreAllWords(line);
      GroupsHaveWords(ws, max);
      GroupsFit(ws, max);
      WordsOfJoin(Groups(ws, max)[i]);
    }
  }

  // ---------------------------------------------------------------- the number of lines

  lemma {:induction false} ShorterFillsMore(len: nat, longer: nat, ws: seq<string>, max: nat)
    requires len <= longer
    ensures Fill(len, ws, max) >= Fill(longer, ws, max)
    decreases |ws|
  {
    if Fill(longer, ws, max) > 0 { ShorterFillsMore(len + 1 + |ws[0]|, longer + 1 + |ws[0]|, ws[1..], max); }
  }

  lemma GroupsNext(ws: seq<string>, max: nat)
    requires ws != []
    ensures |Groups(ws, max)| == 1 + |Groups(ws[First(ws, max)..], max)|
  {
  }

  // Without its first word a line takes all its other words, and perhaps more.
  lemma FirstOfRest(ws: seq<string>, max: nat)
    requires ws != [] && First(ws, max) > 1
    ensures |ws| > 1 && First(ws, max) - 1 <= First(ws[1..], max)
  {
    var rest := ws[1..];
    ShorterFillsMore(|rest[0]|, |ws[0]| + 1 + |rest[0]|, rest[1..], max);
  }

  lemma FewerBehind(ws: seq<string>, n: nat, m: nat, max: nat)
    requires 1 <= n <= m + 1 <= |ws| && |Groups(ws[n..][m - (n - 1)..], max)| <= |Groups(ws[n..], max)|
    ensures |Groups(ws[1..][m..], max)| <= |Groups(ws[n..], max)|
  {
    assert ws[1..][m..] == ws[n..][m - (n - 1)..];
  }

  // Without its first word a list needs no more lines.
  lemma {:induction false} FewerWords(ws: seq<string>, max: nat)
    requires ws != []
    ensures |Groups(ws[1..], max)| <= |Groups(ws, max)|
    decreases |ws|, 0
  {
    var n := First(ws, max);
    GroupsNext(ws, max);
    if n > 1 {
      FirstOfRest(ws, max);
      var m := First(ws[1..], max);
      GroupsNext(ws[1..], max);
      FewerStill(ws[n..], m - (n - 1), max);
      FewerBehind(ws, n, m, max);
    }
  }

  lemma {:induction false} FewerStill(ws: seq<string>, k: nat, max: nat)
    requires k <= |ws|
    ensures |Groups(ws[k..], max)| <= |Groups(ws, max)|
    decreases |ws|, 1, k
  {
    if k == 0 {
      assert ws[0..] == ws;
    } else {
      FewerWords(ws, max);
      FewerStill(ws[1..], k - 1, max);
      assert ws[1..][k - 1..] == ws[k..];
    }
  }

  // The first line takes at least as many words as any other line that fits.
  lemma {:induction false} FillIsLongest(current: string, more: seq<string>, after: seq<string>, max: nat)
    requires |Extend(current, more)| <= max
    ensures Fill(|current|, more + after, max) >= |more|
    decreases |more|
  {
    if more != [] {
      ExtendIsLonger(current + " " + more[0], more[1..]);
      FillIsLongest(current + " " + more[0], more[1..], after, max);
      assert (more + after)[1..] == more[1..] + after;
    }
  }

  lemma {:induction false} ExtendIsLonger(current: string, more: seq<string>)
    ensures |Extend(current, more)| >= |current|
    decreases |more|
  {
    if more != [] { ExtendIsLonger(current + " " + more[0], more[1..]); }
  }

  lemma FirstIsLongest(group: seq<string>, after: seq<string>, max: nat)
    requires group != [] && (|Join(group)| <= max || |group| == 1)
    ensures First(group + after, max) >= |group|
  {
    if |group| > 1 {
      FirstLine(group, |group|);
      assert group[1..][..|group| - 1] == group[1..] && group[..|group|] == group;
      FillIsLongest(group[0], group[1..], after, max);
      assert (group + after)[1..] == group[1..] + after;
    }
  }

  // A line is at least as long as its words joined by single spaces.
  lemma {:induction false} JoinedIsShorter(line: string)
    ensures Words(line) != [] ==> |Join(Words(line))| <= |line|
    decreases |line|, 1
  {
    if line != "" {
      if WhitePrefix(line) > 0 {
        JoinedIsShorter(line[WhitePrefix(line)..]);
      } else {
        var k := WordLength(line);
        JoinedIsShorter(line[k..]);
        assert Words(line) == [line[..k]] + Words(line[k..]);
        if Words(line[k..]) != [] { SpaceBetween(line); }
      }
    }
  }

  // Between two words there is white space.
  lemma SpaceBetween(line: string)
    requires line != "" && WhitePrefix(line) == 0 && Words(line[WordLength(line)..]) != []
    ensures |Join(Words(line[WordLength(line)..]))| < |line[WordLength(line)..]|
    decreases |line|, 0
  {
    var rest := line[WordLength(line)..];
    WordEnds(line);
    JoinedIsShorter(rest[WhitePrefix(rest)..]);
  }

  lemma {:induction false} WordEnds(line: string)
    ensures var rest := line[WordLength(line)..]; rest == "" || WhitePrefix(rest) > 0
    decreases |line|
  {
    if line != "" && WhitePrefix(line) == 0 {
      WordEnds(line[1..]);
      assert line[WordLength(line)..] == line[1..][WordLength(line[1..])..];
    }
  }

  lemma DropBehind<T>(a: seq<T>, b: seq<T>, n: nat)
    requires |a| <= n <= |a + b|
    ensures (a + b)[n..] == b[n - |a|..]
  {
  }

  lemma FewerBehindGroup(group: seq<string>, after: seq<string>, n: nat, max: nat)
    requires |group| <= n <= |group + after|
    ensures |Groups((group + after)[n..], max)| <= |Groups(after, max)|
  {
    FewerStill(after, n - |group|, max);
    DropBehind(group, after, n);
  }

  // One line more takes at most one group more.
  lemma OneLineMore(group: seq<string>, after: seq<string>, max: nat)
    requires group != [] && (|Join(group)| <= max || |group| == 1)
    ensures |Groups(group + after, max)| <= 1 + |Groups(after, max)|
  {
    FirstIsLongest(group, after, max);
    GroupsNext(group + after, max);
    FewerBehindGroup(group, after, First(group + after, max), max);
  }

  // Main result: no other way to spread the same words over lines that fit, however they are
  // spaced, takes fewer lines.
  lemma {:induction false} WrappingIsMinimal(lines: seq<string>, max: nat)
    requires forall i | 0 <= i < |lines| :: Words(lines[i]) == [] || Fits(lines[i], max)
    ensures |Groups(WordsOfLines(lines), max)| <= |lines|
    decreases |lines|
  {
    if lines != [] {
      var group, after := Words(lines[0]), WordsOfLines(lines[1..]);
      WrappingIsMinimal(lines[1..], max);
      if group == [] {
        assert group + after == after;
      } else {
        JoinedIsShorter(lines[0]);
        OneLineMore(group, after, max);
      }
    }
  }

  lemma WrapIsMinimal(line: string, lines: seq<string>, max: nat)
    requires lines != [] && WordsOfLines(lines) == Words(line)
    requires forall i | 0 <= i < |lines| :: Words(lines[i]) == [] || Fits(lines[i], max)
    ensures |Wrapped(line, max)| <= |lines|
  {
    WrappingIsMinimal(lines, max);
  }

  // ---------------------------------------------------------------- greedy lines

  // Each group has words and fits, and the first word of the next one would not fit behind it.
  ghost predicate Greedy(groups: seq<seq<string>>, max: nat) {
    && (forall i | 0 <= i < |groups| :: groups[i] != [] && (|Join(groups[i])| <= max || |groups[i]| == 1))
    && (forall i | 0 <= i < |groups| - 1 && groups[i + 1] != [] ::
          |Join(groups[i])| + 1 + |groups[i + 1][0]| > max)
  }

  lemma {:induction false} FillStops(current: string, more: seq<string>, after: seq<string>, max: nat)
    requires after != [] && |Extend(current, more)| + 1 + |after[0]| > max
    ensures Fill(|current|, more + after, max) <= |more|
    decreases |more|
  {
    if more == [] {
      assert more + after == after;
    } else {
      FillStops(current + " " + more[0], more[1..], after, max);
      assert (more + after)[1..] == more[1..] + after;
    }
  }

  lemma {:induction false} FillIsFull(current: string, ws: seq<string>, max: nat)
    requires Fill(|current|, ws, max) < |ws|
    ensures var n := Fill(|current|, ws, max); |Extend(current, ws[..n])| + 1 + |ws[n]| > max
    decreases |ws|
  {
    var n := Fill(|current|, ws, max);
    if n > 0 {
      FillIsFull(current + " " + ws[0], ws[1..], max);
      assert ws[..n][1..] == ws[1..][..n - 1];
    }
  }

  lemma FirstIsFull(ws: seq<string>, max: nat)
    requires ws != [] && First(ws, max) < |ws|
    ensures |Join(ws[..First(ws, max)])| + 1 + |ws[First(ws, max)]| > max
  {
    FillIsFull(ws[0], ws[1..], max);
    FirstLine(ws, First(ws, max));
  }

  lemma FirstIsGroup(group: seq<string>, after: seq<string>, max: nat)
    requires group != [] && (|Join(group)| <= max || |group| == 1)
    requires after != [] ==> |Join(group)| + 1 + |after[0]| > max
    ensures First(group + after, max) == |group|
  {
    FirstIsLongest(group, after, max);
    if after != [] {
      FirstLine(group, |group|);
      assert group[1..][..|group| - 1] == group[1..] && group[..|group|] == group;
      FillStops(group[0], group[1..], after, max);
      assert (group + after)[1..] == group[1..] + after;
    }
  }

  lemma {:induction false} GroupsAreGreedy(ws: seq<string>, max: nat)
    ensures Greedy(Groups(ws, max), max)
    decreases |ws|
  {
    if ws != [] {
      var n, groups := First(ws, max), Groups(ws, max);
      GroupsAreGreedy(ws[n..], max);
      FirstFits(ws, max);
      if n < |ws| {
        FirstIsFull(ws, max);
        assert groups[1] == ws[n..][..First(ws[n..], max)];
      }
      assert groups[1..] == Groups(ws[n..], max);
      forall i | 0 <= i < |groups| - 1 && groups[i + 1] != []
        ensures |Join(groups[i])| + 1 + |groups[i + 1][0]| > max
      {
        if i > 0 { assert groups[i] == groups[1..][i - 1] && groups[i + 1] == groups[1..][i]; }
      }
    }
  }

  lemma GreedyBehind(groups: seq<seq<string>>, max: nat)
    requires Greedy(groups, max) && groups != []
    ensures Greedy(groups[1..], max)
    ensures Flatten(groups[1..]) != [] ==> |groups| > 1 && Flatten(groups[1..])[0] == groups[1][0]
  {
    var rest := groups[1..];
    forall i | 0 <= i < |rest| - 1 && rest[i + 1] != [] ensures |Join(rest[i])| + 1 + |rest[i + 1][0]| > max {
      assert rest[i] == groups[i + 1] && rest[i + 1] == groups[i + 2];
    }
    if rest != [] { assert Flatten(rest) == rest[0] + Flatten(rest[1..]); }
  }

  lemma {:induction false} GreedyIsGroups(groups: seq<seq<string>>, max: nat)
    requires Greedy(groups, max)
    ensures groups == Groups(Flatten(groups), max)
    decreases |groups|
  {
    if groups != [] {
      var after := Flatten(groups[1..]);
      GreedyBehind(groups, max);
      GreedyIsGroups(groups[1..], max);
      FirstIsGroup(groups[0], after, max);
      assert (groups[0] + after)[..|groups[0]|] == groups[0] && (groups[0] + after)[|groups[0]|..] == after;
    }
  }

  lemma GreedyExists(ws: seq<string>, max: nat)
    ensures exists g :: Greedy(g, max) && Flatten(g) == ws
  {
    GroupsAreGreedy(ws, max);
    GroupsKeepWords(ws, max);
    assert Greedy(Groups(ws, max), max) && Flatten(Groups(ws, max)) == ws;
  }

  lemma WrittenGroups(line: string, max: nat, groups: seq<seq<string>>)
    requires Words(line) != [] && groups == Groups(Words(line), max)
    ensures |Wrapped(line, max)| == |groups| && forall i | 0 <= i < |groups| :: Wrapped(line, max)[i] == Join(groups[i])
  {
  }

  // Main result: a line without words becomes one empty line; any other becomes the one way to cut
  // its words into groups that are greedy, each written with single spaces.
  lemma WrappedIff(line: string, max: nat, groups: seq<seq<string>>)
    ensures Words(line) == [] ==> Wrapped(line, max) == [""]
    ensures Words(line) != [] ==> exists g :: Greedy(g, max) && Flatten(g) == Words(line)
    ensures Words(line) != [] && Greedy(groups, max) && Flatten(groups) == Words(line) ==>
      |Wrapped(line, max)| == |groups| && forall i | 0 <= i < |groups| :: Wrapped(line, max)[i] == Join(groups[i])
  {
    GreedyExists(Words(line), max);
    if Words(line) != [] && Greedy(groups, max) && Flatten(groups) == Words(line) {
      GreedyIsGroups(groups, max);
      WrittenGroups(line, max, groups);
    }
  }
}
