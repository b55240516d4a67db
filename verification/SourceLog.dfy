/**
 * The single-pass scan that finds one message's block in the scan log.
 * The log is the lines that could be read.
 */
module SourceLog {
  import opened Prelude

  const SEPARATOR_CHAR := '='
  const SEPARATOR_WIDTH := 80
  const MARKER_PREFIX := "Message ID : "

  /** The line starts with a full-width row of separator characters. */
  predicate IsSeparator(line: string) {
    |line| >= SEPARATOR_WIDTH && forall i :: 0 <= i < SEPARATOR_WIDTH ==> line[i] == SEPARATOR_CHAR
  }

  predicate Contains(line: string, needle: string) {
    needle <= line || (line != [] && Contains(line[1..], needle))
  }

  /** A line that belongs to the message: it names it and does not start a block. */
  predicate Hits(line: string, messageId: string) {
    !IsSeparator(line) && Contains(line, MARKER_PREFIX + messageId)
  }

  /** A separator line is one that starts with eighty equals signs. */
  lemma SeparatorMeans(line: string)
    ensures IsSeparator(line) <==> seq(80, _ => '=') <= line
  {
    var rule := seq(80, _ => '=');
    assert rule <= line <==> |line| >= 80 && line[..80] == rule;
    if |line| >= 80 {
      assert line[..80] == rule <==> forall i :: 0 <= i < 80 ==> line[..80][i] == rule[i];
    }
  }

  /** The returned text is the lines in order, each ended by a line feed. */
  lemma {:induction false} TextConcat(xs: seq<string>, ys: seq<string>, line: string)
    ensures Text([]) == "" && Text([line]) == line + "\n"
    ensures Text(xs + ys) == Text(xs) + Text(ys)
  {
    assert [line][..0] == [];
    if ys == [] {
      assert xs + ys == xs;
    } else {
      var n := |ys| - 1;
      TextConcat(xs, ys[..n], line);
      assert (xs + ys)[..|xs| + n] == xs + ys[..n];
    }
  }

  function Text(lines: seq<string>): string {
    if lines == [] then "" else Text(lines[..|lines| - 1]) + lines[|lines| - 1] + "\n"
  }

  predicate NoneHits(lines: seq<string>, messageId: string) {
    forall i :: 0 <= i < |lines| ==> !Hits(lines[i], messageId)
  }

  /** Line m is the first that names the message. */
  predicate FirstHit(lines: seq<string>, messageId: string, m: nat) {
    && m < |lines|
    && Hits(lines[m], messageId)
    && forall i :: 0 <= i < m ==> !Hits(lines[i], messageId)
  }

  /** Lines a..b reach from the last separator before m, or the start, to the first after it, or the end. */
  predicate BlockAround(lines: seq<string>, m: nat, a: nat, b: nat) {
    && a <= m < b <= |lines|
    && (a == 0 || IsSeparator(lines[a]))
    && (forall i :: a < i <= m ==> !IsSeparator(lines[i]))
    && (forall i :: m < i < b - 1 ==> !IsSeparator(lines[i]))
    && (b == |lines| || (b - 1 > m && IsSeparator(lines[b - 1])))
  }

  predicate OccursAt(line: string, needle: string, i: nat) {
    i + |needle| <= |line| && line[i..i + |needle|] == needle
  }

  /** The recursive search finds the needle exactly when it occurs somewhere. */
  lemma {:induction false} ContainsMeans(line: string, needle: string)
    ensures Contains(line, needle) <==> exists i: nat :: OccursAt(line, needle, i)
  {
    assert needle <= line <==> OccursAt(line, needle, 0);
    if line != [] {
      ContainsMeans(line[1..], needle);
      assert forall i: nat :: OccursAt(line[1..], needle, i) ==> OccursAt(line, needle, i + 1);
      assert forall i: nat :: i > 0 && OccursAt(line, needle, i) ==> OccursAt(line[1..], needle, i - 1);
    }
  }

  /** A line names a message when it is no separator and the marker with its id occurs in it. */
  lemma {:induction false} HitsMeans(line: string, messageId: string)
    ensures Hits(line, messageId) <==>
              && !(seq(80, _ => '=') <= line)
              && exists i: nat :: OccursAt(line, "Message ID : " + messageId, i)
  {
    SeparatorMeans(line);
    ContainsMeans(line, "Message ID : " + messageId);
  }

  /** The scan returns the text of exactly one block when the message is named, and fails otherwise. */
  method FetchSourceLog(lines: seq<string>, messageId: string) returns (block: Option<string>)
    ensures block.None? <==> NoneHits(lines, messageId)
    ensures block.Some? ==>
              exists m: nat, a: nat, b: nat :: FirstHit(lines, messageId, m) && BlockAround(lines, m, a, b)
                                && block.value == Text(lines[a..b])
  {
    var insideTargetBlock := false;
    var currentBlock := "";
    ghost var from, hit := 0, 0;
    var i := 0;
    while i < |lines|
      invariant 0 <= from <= i <= |lines| && (from > 0 ==> from < i)
      invariant currentBlock == Text(lines[from..i])
      invariant from == 0 || IsSeparator(lines[from])
      invariant !insideTargetBlock ==>
                  && (forall j :: 0 <= j < i ==> !Hits(lines[j], messageId))
                  && (forall j :: from < j < i ==> !IsSeparator(lines[j]))
      invariant insideTargetBlock ==>
                  && from <= hit < i && FirstHit(lines, messageId, hit)
                  && (forall j :: from < j < i ==> !IsSeparator(lines[j]))
    {
      var l := lines[i];
      if IsSeparator(l) {
        if insideTargetBlock {
          TextSnoc(lines, from, i);
          assert BlockAround(lines, hit, from, i + 1);
          return Some(currentBlock + l + "\n");
        }
        from := i;
        TextSnoc(lines, from, i);
        currentBlock := "";
        currentBlock := currentBlock + l + "\n";
      } else {
        TextSnoc(lines, from, i);
        currentBlock := currentBlock + l + "\n";
        if !insideTargetBlock && Contains(l, MARKER_PREFIX + messageId) {
          insideTargetBlock := true;
          hit := i;
        }
      }
      i := i + 1;
    }
    if insideTargetBlock {
      assert BlockAround(lines, hit, from, |lines|);
      return Some(currentBlock);
    }
    block := None;
  }

  lemma TextSnoc(lines: seq<string>, a: nat, i: nat)
    requires a <= i < |lines|
    ensures Text(lines[a..i + 1]) == Text(lines[a..i]) + lines[i] + "\n"
  {
    assert lines[a..i + 1][..i - a] == lines[a..i];
  }

  /** The block is determined by the log: no two answers satisfy the description. */
  lemma BlockIsUnique(lines: seq<string>, messageId: string, m: nat, a: nat, b: nat, m': nat, a': nat, b': nat)
    requires FirstHit(lines, messageId, m) && BlockAround(lines, m, a, b)
    requires FirstHit(lines, messageId, m') && BlockAround(lines, m', a', b')
    ensures m == m' && a == a' && b == b'
  {
    assert a == 0 || IsSeparator(lines[a]);
    assert a' == 0 || IsSeparator(lines[a']);
    assert b == |lines| || IsSeparator(lines[b - 1]);
    assert b' == |lines| || IsSeparator(lines[b' - 1]);
  }

  /** A returned block names the message and contains at most its two delimiting separators. */
  lemma BlockHasOneMessage(lines: seq<string>, messageId: string, m: nat, a: nat, b: nat)
    requires FirstHit(lines, messageId, m) && BlockAround(lines, m, a, b)
    ensures lines[m] in lines[a..b]
    ensures forall i :: a <= i < b && IsSeparator(lines[i]) ==> i == a || i == b - 1
  {
    assert lines[a..b][m - a] == lines[m];
  }

  /**
   * If line x names the message and lines a'..b' are its block, the scan returns
   * that block exactly when no line before the block names the message as well.
   */
  lemma {:induction false} OwnBlockExactlyWhen(lines: seq<string>, messageId: string, x: nat, a': nat, b': nat,
                                               m: nat, a: nat, b: nat)
    requires BlockAround(lines, x, a', b') && Hits(lines[x], messageId)
    requires FirstHit(lines, messageId, m) && BlockAround(lines, m, a, b)
    ensures a == a' && b == b' <==> NoneHits(lines[..a'], messageId)
  {
    if m >= a' {
      assert m <= x;
      SameBlock(lines, m, a, b, x, a', b');
    } else {
      assert Hits(lines[..a'][m], messageId);
    }
  }

  lemma SameBlock(lines: seq<string>, m: nat, a: nat, b: nat, x: nat, a': nat, b': nat)
    requires BlockAround(lines, m, a, b) && BlockAround(lines, x, a', b') && a' <= m <= x && !IsSeparator(lines[m])
    ensures a == a' && b == b'
  {
    assert a == 0 || IsSeparator(lines[a]);
    assert a' == 0 || IsSeparator(lines[a']);
    assert b == |lines| || IsSeparator(lines[b - 1]);
    assert b' == |lines| || IsSeparator(lines[b' - 1]);
  }

  // ---- What the scanner writes ---------------------------------------------------------

  /** One message's report; each header field is one line, the preview as many as the body has. */
  datatype Entry = Entry(
    timestamp: string,
    messageId: string,
    decision: string,
    reason: string,
    sender: string,
    subject: string,
    snippet: string,
    preview: Option<seq<string>>)

  function Rule(c: char): (s: string)
    ensures |s| == SEPARATOR_WIDTH && forall i :: 0 <= i < |s| ==> s[i] == c
  {
    seq(SEPARATOR_WIDTH, _ => c)
  }

  /** The lines between an entry's two separators. */
  function Content(e: Entry): seq<string> {
    ["Timestamp  : " + e.timestamp,
     MARKER_PREFIX + e.messageId,
     "Decision   : " + e.decision,
     "Reason     : " + e.reason,
     "From       : " + e.sender,
     "Subject    : " + e.subject,
     Rule('-'),
     "Snippet    : " + e.snippet]
    + if e.preview.Some? then [Rule('-'), "Body Preview:"] + e.preview.value else []
  }

  function Fenced(content: seq<string>): seq<string> {
    [Rule(SEPARATOR_CHAR)] + content + [Rule(SEPARATOR_CHAR), ""]
  }

  function EntryLines(e: Entry): seq<string> {
    Fenced(Content(e))
  }

  function Log(entries: seq<Entry>): seq<string> {
    if entries == [] then [] else Log(entries[..|entries| - 1]) + EntryLines(entries[|entries| - 1])
  }

  /** No line of the body preview looks like a separator. */
  predicate Plain(e: Entry) {
    e.preview.Some? ==> forall i :: 0 <= i < |e.preview.value| ==> !IsSeparator(e.preview.value[i])
  }

  /** Some line of the entry, its own id line or any text a sender put there, names the message. */
  predicate Names(e: Entry, messageId: string) {
    exists i :: 0 <= i < |Content(e)| && Hits(Content(e)[i], messageId)
  }

  /** Where a written entry carries its id and its subject. */
  lemma ContentCarries(e: Entry)
    ensures EntryLines(e)[0] == seq(80, _ => '=')
    ensures EntryLines(e)[2] == "Message ID : " + e.messageId && EntryLines(e)[6] == "Subject    : " + e.subject
    ensures EntryLines(e)[|Content(e)| + 1..] == [seq(80, _ => '='), ""]
  {
    assert Rule('=') == seq(80, _ => '=');
  }

  lemma ContentIsPlain(e: Entry)
    requires Plain(e)
    ensures forall i :: 0 <= i < |Content(e)| ==> !IsSeparator(Content(e)[i])
  {
    forall i | 0 <= i < |Content(e)| ensures !IsSeparator(Content(e)[i]) {
      if i < 10 {
        assert Content(e)[i][0] != SEPARATOR_CHAR;
      } else {
        assert Content(e)[i] == e.preview.value[i - 10];
      }
    }
  }

  /** Where entry k starts in the log. */
  function Start(entries: seq<Entry>, k: nat): nat
    requires k <= |entries|
  {
    |Log(entries[..k])|
  }

  lemma {:induction false} LogSplits(entries: seq<Entry>, k: nat) returns (rest: seq<string>)
    requires k < |entries|
    ensures Log(entries) == Log(entries[..k]) + EntryLines(entries[k]) + rest
  {
    var n := |entries| - 1;
    if k == n {
      rest := [];
    } else {
      assert entries[..n][..k] == entries[..k];
      rest := LogSplits(entries[..n], k);
      rest := rest + EntryLines(entries[n]);
    }
  }

  /** A log has a line naming a message exactly when one of its entries does. */
  lemma {:induction false} LogNames(entries: seq<Entry>, messageId: string)
    ensures NoneHits(Log(entries), messageId) <==> forall j :: 0 <= j < |entries| ==> !Names(entries[j], messageId)
  {
    if entries != [] {
      var n := |entries| - 1;
      LogNames(entries[..n], messageId);
      EntryHits(entries[n], messageId);
      HitsOfTwo(Log(entries[..n]), EntryLines(entries[n]), messageId);
      assert forall j :: 0 <= j < n ==> entries[..n][j] == entries[j];
    }
  }

  lemma HitsOfTwo(xs: seq<string>, ys: seq<string>, messageId: string)
    ensures NoneHits(xs + ys, messageId) <==> NoneHits(xs, messageId) && NoneHits(ys, messageId)
  {
    assert forall x :: 0 <= x < |xs| ==> (xs + ys)[x] == xs[x];
    assert forall y :: 0 <= y < |ys| ==> (xs + ys)[|xs| + y] == ys[y];
  }

  lemma EntryHits(e: Entry, messageId: string)
    ensures Names(e, messageId) <==> !NoneHits(EntryLines(e), messageId)
  {
    var n := |Content(e)|;
    assert forall i :: 0 <= i < n ==> EntryLines(e)[i + 1] == Content(e)[i];
    assert !Hits(EntryLines(e)[0], messageId) && !Hits(EntryLines(e)[n + 1], messageId);
    assert EntryLines(e)[n + 2] == "";
    assert !Contains("", MARKER_PREFIX + messageId);
    if i :| 0 <= i < n + 3 && Hits(EntryLines(e)[i], messageId) {
      assert 1 <= i <= n && Hits(Content(e)[i - 1], messageId);
    }
    if Names(e, messageId) {
      var i :| 0 <= i < n && Hits(Content(e)[i], messageId);
      assert Hits(EntryLines(e)[i + 1], messageId);
    }
  }

  /** Plain lines between two separators form a block, whatever stands around them. */
  lemma FencedIsBlock(before: seq<string>, content: seq<string>, rest: seq<string>, i: nat)
    requires i < |content| && forall j :: 0 <= j < |content| ==> !IsSeparator(content[j])
    ensures var lines := before + Fenced(content) + rest;
            && lines[|before| + 1 + i] == content[i]
            && BlockAround(lines, |before| + 1 + i, |before|, |before| + |content| + 2)
  {
    var lines := before + Fenced(content) + rest;
    assert forall x :: |before| < x <= |before| + |content| ==> lines[x] == content[x - |before| - 1];
    assert IsSeparator(lines[|before|]) && IsSeparator(lines[|before| + |content| + 1]);
  }

  /** If one of them names the message, earlier lines alone decide whether that block is shown. */
  lemma FencedLineIsShown(before: seq<string>, content: seq<string>, rest: seq<string>, i: nat, messageId: string,
                          m: nat, a: nat, b: nat)
    requires i < |content| && Hits(content[i], messageId)
    requires forall j :: 0 <= j < |content| ==> !IsSeparator(content[j])
    requires var lines := before + Fenced(content) + rest;
             FirstHit(lines, messageId, m) && BlockAround(lines, m, a, b)
    ensures a == |before| && b == a + |content| + 2 <==> NoneHits(before, messageId)
  {
    var lines := before + Fenced(content) + rest;
    FencedIsBlock(before, content, rest, i);
    OwnBlockExactlyWhen(lines, messageId, |before| + 1 + i, |before|, |before| + |content| + 2, m, a, b);
    assert lines[..|before|] == before;
  }

  /** With a separator among its lines, an entry as a whole is no block of any line it holds. */
  lemma BrokenIsNoBlock(before: seq<string>, content: seq<string>, rest: seq<string>, j: nat, m: nat)
    requires j < |content| && IsSeparator(content[j])
    ensures var lines := before + Fenced(content) + rest;
            m < |lines| && !IsSeparator(lines[m]) ==> !BlockAround(lines, m, |before|, |before| + |content| + 2)
  {
    var lines := before + Fenced(content) + rest;
    assert lines[|before| + 1 + j] == content[j];
    assert lines[|before| + |content| + 1] == Rule(SEPARATOR_CHAR);
  }

  lemma SeparatorInside(e: Entry) returns (j: nat)
    requires !Plain(e)
    ensures j < |Content(e)| && IsSeparator(Content(e)[j])
  {
    var preview := e.preview.value;
    var i :| 0 <= i < |preview| && IsSeparator(preview[i]);
    j := 10 + i;
    assert Content(e)[j] == preview[i];
  }

  lemma BrokenEntryIsCut(entries: seq<Entry>, n: nat, m: nat)
    requires n < |entries| && !Plain(entries[n])
    requires m < |Log(entries)| && !IsSeparator(Log(entries)[m])
    ensures !BlockAround(Log(entries), m, Start(entries, n), Start(entries, n) + |Content(entries[n])| + 2)
  {
    var content := Content(entries[n]);
    var j := SeparatorInside(entries[n]);
    var rest := LogSplits(entries, n);
    BrokenIsNoBlock(Log(entries[..n]), content, rest, j, m);
  }

  lemma OwnIdIsNamed(e: Entry)
    ensures Names(e, e.messageId)
  {
    var line := Content(e)[1];
    assert line[0] == 'M';
    assert MARKER_PREFIX + e.messageId <= line;
    assert Hits(line, e.messageId);
  }

  lemma PlainLookup(entries: seq<Entry>, n: nat, m: nat, a: nat, b: nat)
    requires n < |entries| && Plain(entries[n])
    requires FirstHit(Log(entries), entries[n].messageId, m) && BlockAround(Log(entries), m, a, b)
    ensures a == Start(entries, n) && b == a + |Content(entries[n])| + 2
       <==> forall k :: 0 <= k < n ==> !Names(entries[k], entries[n].messageId)
  {
    var before, content, id := Log(entries[..n]), Content(entries[n]), entries[n].messageId;
    assert a == |before| && b == a + |content| + 2 <==> NoneHits(before, id) by {
      OwnIdIsNamed(entries[n]);
      ContentIsPlain(entries[n]);
      var i :| 0 <= i < |content| && Hits(content[i], id);
      var rest := LogSplits(entries, n);
      FencedLineIsShown(before, content, rest, i, id, m, a, b);
    }
    LogNames(entries[..n], id);
  }

  /**
   * Looking up a message in a written log returns its own entry, from separator to
   * separator, exactly when its preview holds no separator line and no earlier
   * entry names it too.
   */
  lemma {:induction false} LookupFindsOwnEntryExactlyWhen(entries: seq<Entry>, n: nat, m: nat, a: nat, b: nat)
    requires n < |entries|
    requires FirstHit(Log(entries), entries[n].messageId, m) && BlockAround(Log(entries), m, a, b)
    ensures a == Start(entries, n) && b == a + |Content(entries[n])| + 2
       <==> Plain(entries[n]) && forall k :: 0 <= k < n ==> !Names(entries[k], entries[n].messageId)
  {
    if Plain(entries[n]) {
      PlainLookup(entries, n, m, a, b);
    } else {
      BrokenEntryIsCut(entries, n, m);
    }
  }

  /** Every written message is named in the log, so its lookup always returns something. */
  lemma {:induction false} WrittenIsNamed(entries: seq<Entry>, n: nat)
    requires n < |entries|
    ensures !NoneHits(Log(entries), entries[n].messageId)
  {
    OwnIdIsNamed(entries[n]);
    LogNames(entries, entries[n].messageId);
  }

  lemma LongerIdNames(e: Entry, id: string, right: string)
    requires e.messageId == id + right
    ensures Names(e, id)
  {
    OccursInside(Content(e)[1], "", MARKER_PREFIX + id, right);
    assert Content(e)[1][0] == 'M';
    assert Hits(Content(e)[1], id);
  }

  lemma SubjectNames(e: Entry, id: string, left: string, right: string)
    requires e.subject == left + MARKER_PREFIX + id + right
    ensures Names(e, id)
  {
    OccursInside(Content(e)[5], "Subject    : " + left, MARKER_PREFIX + id, right);
    assert Content(e)[5][0] == 'S';
    assert Hits(Content(e)[5], id);
  }

  /**
   * An earlier entry does so if its own id merely starts with the wanted one, or
   * if its sender wrote the marker into the subject: both shadow the wanted entry.
   */
  lemma {:induction false} ShadowedLookup(entries: seq<Entry>, n: nat, k: nat, left: string, right: string, m: nat,
                                          a: nat, b: nat)
    requires k < n < |entries|
    requires || entries[k].messageId == entries[n].messageId + right
             || entries[k].subject == left + MARKER_PREFIX + entries[n].messageId + right
    requires FirstHit(Log(entries), entries[n].messageId, m) && BlockAround(Log(entries), m, a, b)
    ensures a != Start(entries, n) || b != a + |Content(entries[n])| + 2
  {
    if entries[k].messageId == entries[n].messageId + right {
      LongerIdNames(entries[k], entries[n].messageId, right);
    } else {
      SubjectNames(entries[k], entries[n].messageId, left, right);
    }
    LookupFindsOwnEntryExactlyWhen(entries, n, m, a, b);
  }

  lemma {:induction false} OccursInside(line: string, left: string, needle: string, right: string)
    requires line == left + needle + right
    ensures Contains(line, needle)
  {
    assert OccursAt(line, needle, |left|);
    ContainsMeans(line, needle);
  }
}
