/** Commenting signature checks out and in again, line by line between two markers. */
module SigChecks {
  import opened Collections

  const START: string := "// == SignatureCheck( =="
  const END: string := "// == ) =="

  predicate Contains(s: string, sub: string) {
    sub <= s || (|s| > 0 && Contains(s[1..], sub))
  }

  /** The first position of "// ", or `None` where Python raises an error. */
  function IndexOfSlashes(s: string): (r: Option<nat>)
    ensures r.Some? ==> r.value + 3 <= |s| && s[r.value..r.value + 3] == "// "
  {
    if "// " <= s then Some(0)
    else if |s| == 0 then None
    else
      match IndexOfSlashes(s[1..])
      case None => None
      case Some(i) => Some(i + 1)
  }

  predicate IsSpace(c: char) {
    c == ' ' || '\t' <= c <= '\r' || '\U{1c}' <= c <= '\U{1f}' || c == '\U{85}' || c == '\U{a0}'
  }

  /** `line.strip().startswith("//")`. */
  predicate IsComment(line: string) {
    if |line| == 0 then false
    else if IsSpace(line[0]) then IsComment(line[1..])
    else "//" <= line
  }

  predicate IsMarker(line: string) {
    Contains(line, START) || Contains(line, END)
  }

  function InsideAfter(inside: bool, line: string): bool {
    if Contains(line, START) then true else if Contains(line, END) then false else inside
  }

  datatype Flag = Comment | Uncomment

  /** One line; `None` is the error of a comment without a space after its slashes. */
  function Rewritten(flag: Flag, inside: bool, line: string): Option<string> {
    if IsMarker(line) || !inside then Some(line)
    else if flag == Comment then Some(if IsComment(line) then line else "// " + line)
    else if !IsComment(line) then Some(line)
    else
      match IndexOfSlashes(line)
      case None => None
      case Some(i) => Some(line[i + 3..])
  }

  /** Whether the line after these is inside a marked region. */
  function Inside(lines: seq<string>): bool {
    if |lines| == 0 then false else InsideAfter(Inside(lines[..|lines| - 1]), lines[|lines| - 1])
  }

  function Rewrite(flag: Flag, lines: seq<string>): Option<seq<string>> {
    if |lines| == 0 then Some([])
    else
      var init, last := lines[..|lines| - 1], lines[|lines| - 1];
      match Rewrite(flag, init)
      case None => None
      case Some(out) =>
        match Rewritten(flag, Inside(init), last)
        case None => None
        case Some(line) => Some(out + [line])
  }

  method ModifySignatureChecks(lines: seq<string>, flag: Flag) returns (modified: Option<seq<string>>)
    ensures modified == Rewrite(flag, lines)
    ensures modified.None? <==> exists i :: 0 <= i < |lines| && Spoils(flag, lines, i)
    ensures modified.Some? ==> |modified.value| == |lines|
    ensures modified.Some? ==> forall i :: 0 <= i < |lines| ==> LineBecomes(flag, lines, i, modified.value[i])
  {
    modified := RewriteLines(lines, flag);
    RewriteIff(flag, lines, |lines|);
    assert lines[..|lines|] == lines;
  }

  method RewriteLines(lines: seq<string>, flag: Flag) returns (modified: Option<seq<string>>)
    ensures modified == Rewrite(flag, lines)
  {
    var inside, modifiedLines := false, [];
    for i := 0 to |lines|
      invariant inside == Inside(lines[..i]) && Some(modifiedLines) == Rewrite(flag, lines[..i])
    {
      var line := lines[i];
      assert lines[..i + 1][..i] == lines[..i];
      if Contains(line, START) {
        inside := true;
        modifiedLines := modifiedLines + [line];
        continue;
      }
      if Contains(line, END) {
        inside := false;
        modifiedLines := modifiedLines + [line];
        continue;
      }
      if inside && flag == Comment && !IsComment(line) {
        modifiedLines := modifiedLines + ["// " + line];
      } else if inside && flag == Uncomment && IsComment(line) {
        var at := IndexOfSlashes(line);
        if at == None {
          RewriteFails(flag, lines, i + 1);
          return None;
        }
        modifiedLines := modifiedLines + [line[at.value + 3..]];
      } else {
        modifiedLines := modifiedLines + [line];
      }
    }
    assert lines[..|lines|] == lines;
    return Some(modifiedLines);
  }

  lemma {:induction false} RewriteFails(flag: Flag, lines: seq<string>, i: nat)
    requires i <= |lines| && Rewrite(flag, lines[..i]) == None
    ensures Rewrite(flag, lines) == None
  {
    if i < |lines| {
      assert lines[..|lines| - 1][..i] == lines[..i];
      RewriteFails(flag, lines[..|lines| - 1], i);
    } else {
      assert lines[..i] == lines;
    }
  }

  /** Commenting never fails. */
  lemma {:induction false} CommentSucceeds(lines: seq<string>)
    ensures Rewrite(Comment, lines).Some?
  {
    if |lines| > 0 {
      CommentSucceeds(lines[..|lines| - 1]);
    }
  }

  function Commented(lines: seq<string>): seq<string> {
    CommentSucceeds(lines);
    Rewrite(Comment, lines).value
  }

  /** A line that survives commenting in and out: not a comment yet, and not a marker once prefixed. */
  predicate Restorable(line: string) {
    !IsComment(line) && !IsMarker("// " + line)
  }

  /** Every line inside a marked region survives. */
  ghost predicate AllRestorable(lines: seq<string>) {
    forall i :: 0 <= i < |lines| ==> LineRestorable(lines, i)
  }

  predicate LineRestorable(lines: seq<string>, i: int)
    requires 0 <= i < |lines|
  {
    Inside(lines[..i]) && !IsMarker(lines[i]) ==> Restorable(lines[i])
  }

  lemma RestorableSnoc(lines: seq<string>)
    requires |lines| > 0
    ensures AllRestorable(lines) <==> AllRestorable(lines[..|lines| - 1]) && LineRestorable(lines, |lines| - 1)
  {
    var n := |lines| - 1;
    forall i | 0 <= i < n
      ensures LineRestorable(lines, i) <==> LineRestorable(lines[..n], i)
    {
      assert lines[..n][..i] == lines[..i];
    }
  }

  lemma PrefixedLine(line: string)
    ensures IsComment("// " + line) && IndexOfSlashes("// " + line) == Some(0) && ("// " + line)[3..] == line
  {
    assert "// " <= "// " + line && "//" <= "// " + line;
  }

  /** One line there and back. */
  lemma LineThereAndBack(inside: bool, line: string)
    ensures var there := Rewritten(Comment, inside, line).value;
            && (Rewritten(Uncomment, inside, there) == Some(line) <==>
                  (inside && !IsMarker(line) ==> Restorable(line)))
            && ((inside && !IsMarker(line) ==> Restorable(line)) ==>
                  InsideAfter(inside, there) == InsideAfter(inside, line))
  {
    if inside && !IsMarker(line) {
      PrefixedLine(line);
      if IsComment(line) && IndexOfSlashes(line).Some? {
        assert |line[IndexOfSlashes(line).value + 3..]| < |line|;
      }
      if IsMarker("// " + line) {
        assert |"// " + line| > |line|;
      }
    }
  }

  /**
   Commenting and then uncommenting restores a file exactly when no line in a marked region starts as a
   comment or becomes a marker once it is prefixed.
   */
  lemma {:induction false} RoundTripIff(lines: seq<string>)
    ensures Rewrite(Uncomment, Commented(lines)) == Some(lines) <==> AllRestorable(lines)
    ensures AllRestorable(lines) ==> Inside(Commented(lines)) == Inside(lines)
  {
    if |lines| > 0 {
      var init, last := lines[..|lines| - 1], lines[|lines| - 1];
      RoundTripIff(init);
      RestorableSnoc(lines);
      CommentedSnoc(init, last);
      assert lines == init + [last];
      if AllRestorable(init) {
        LineThereAndBack(Inside(init), last);
      }
      RewriteSnoc(Uncomment, Commented(init), Rewritten(Comment, Inside(init), last).value);
    }
  }

  lemma CommentedSnoc(init: seq<string>, last: string)
    ensures Rewritten(Comment, Inside(init), last).Some?
    ensures Commented(init + [last]) == Commented(init) + [Rewritten(Comment, Inside(init), last).value]
    ensures Inside(init + [last]) == InsideAfter(Inside(init), last)
  {
    assert (init + [last])[..|init|] == init;
    CommentSucceeds(init);
  }

  /** Rewriting one more line: its result stands last. */
  lemma RewriteSnoc(flag: Flag, init: seq<string>, last: string)
    ensures Inside(init + [last]) == InsideAfter(Inside(init), last)
    ensures Rewrite(flag, init + [last]) ==
            if Rewrite(flag, init).Some? && Rewritten(flag, Inside(init), last).Some?
            then Some(Rewrite(flag, init).value + [Rewritten(flag, Inside(init), last).value]) else None
  {
    assert (init + [last])[..|init|] == init;
  }

  /** Commenting twice is commenting once, for every file. */
  lemma {:induction false} CommentTwice(lines: seq<string>)
    ensures Commented(Commented(lines)) == Commented(lines)
    ensures Inside(Commented(lines)) ==> Inside(lines)
  {
    if |lines| > 0 {
      var init, last := lines[..|lines| - 1], lines[|lines| - 1];
      CommentTwice(init);
      assert lines == init + [last];
      CommentedSnoc(init, last);
      var there := Rewritten(Comment, Inside(init), last).value;
      CommentedSnoc(Commented(init), there);
      PrefixedLine(last);
    }
  }

  // ---- What happens to each line, by its text and its place ----

  ghost predicate Occurs(sub: string, s: string) {
    exists a, b :: s == a + sub + b
  }

  lemma OccursCons(sub: string, s: string)
    requires |sub| > 0
    ensures Occurs(sub, s) <==> sub <= s || (|s| > 0 && Occurs(sub, s[1..]))
  {
    if sub <= s {
      assert s == [] + sub + s[|sub|..];
    } else if |s| > 0 && Occurs(sub, s[1..]) {
      var a, b :| s[1..] == a + sub + b;
      assert s == ([s[0]] + a) + sub + b;
    } else if Occurs(sub, s) {
      OccursLater(sub, s);
    }
  }

  lemma AtFront(a: string, sub: string, b: string)
    ensures |a| == 0 ==> sub <= a + sub + b
  {
  }

  lemma OccursLater(sub: string, s: string)
    requires Occurs(sub, s) && !(sub <= s)
    ensures |s| > 0 && Occurs(sub, s[1..])
  {
    var a, b :| s == a + sub + b;
    AtFront(a, sub, b);
    assert s[1..] == a[1..] + sub + b;
  }

  lemma {:induction false} ContainsIff(s: string, sub: string)
    requires |sub| > 0
    ensures Contains(s, sub) <==> Occurs(sub, s)
  {
    OccursCons(sub, s);
    if |s| > 0 {
      ContainsIff(s[1..], sub);
    }
  }

  ghost predicate Starts(line: string) {
    Occurs(START, line)
  }

  ghost predicate Ends(line: string) {
    Occurs(END, line) && !Starts(line)
  }

  /** Some line before `i` opened a region, and none since has closed it. */
  ghost predicate InRegion(lines: seq<string>, i: int) {
    exists j :: 0 <= j < i <= |lines| && Starts(lines[j]) && OpenUntil(lines, j, i)
  }

  ghost predicate OpenUntil(lines: seq<string>, j: int, i: int)
    requires 0 <= j < i <= |lines|
  {
    forall k :: j < k < i ==> !Ends(lines[k])
  }

  lemma RegionSnoc(lines: seq<string>, i: nat)
    requires i < |lines|
    ensures InRegion(lines, i + 1) <==> Starts(lines[i]) || (InRegion(lines, i) && !Ends(lines[i]))
  {
    if Starts(lines[i]) {
      assert OpenUntil(lines, i, i + 1);
    } else if InRegion(lines, i) && !Ends(lines[i]) {
      var j :| 0 <= j < i && Starts(lines[j]) && OpenUntil(lines, j, i);
      assert OpenUntil(lines, j, i + 1);
    } else if InRegion(lines, i + 1) {
      var j :| 0 <= j < i + 1 && Starts(lines[j]) && OpenUntil(lines, j, i + 1);
      OpenBefore(lines, j, i);
    }
  }

  lemma OpenBefore(lines: seq<string>, j: nat, i: nat)
    requires j <= i < |lines| && Starts(lines[j]) && OpenUntil(lines, j, i + 1)
    ensures Starts(lines[i]) || (InRegion(lines, i) && !Ends(lines[i]))
  {
    if j < i {
      assert OpenUntil(lines, j, i);
    }
  }

  lemma {:induction false} InsideIff(lines: seq<string>, i: nat)
    requires i <= |lines|
    ensures Inside(lines[..i]) <==> InRegion(lines, i)
  {
    if i > 0 {
      InsideIff(lines, i - 1);
      RegionSnoc(lines, i - 1);
      ContainsIff(lines[i - 1], START);
      ContainsIff(lines[i - 1], END);
      assert lines[..i][..i - 1] == lines[..i - 1];
    }
  }

  /** After leading white space the line has two slashes. */
  ghost predicate StartsAsComment(line: string) {
    exists space, rest :: line == space + "//" + rest && forall c | c in space :: IsSpace(c)
  }

  lemma {:induction false} IsCommentIff(line: string)
    ensures IsComment(line) <==> StartsAsComment(line)
  {
    if |line| > 0 && IsSpace(line[0]) {
      IsCommentIff(line[1..]);
      if StartsAsComment(line[1..]) {
        var space, rest :| line[1..] == space + "//" + rest && forall c | c in space :: IsSpace(c);
        assert line == ([line[0]] + space) + "//" + rest;
      }
      if StartsAsComment(line) {
        var space, rest :| line == space + "//" + rest && forall c | c in space :: IsSpace(c);
        assert line[1..] == space[1..] + "//" + rest;
      }
    } else {
      CommentAtOnce(line);
    }
  }

  lemma CommentAtOnce(line: string)
    requires |line| > 0 ==> !IsSpace(line[0])
    ensures "//" <= line <==> StartsAsComment(line)
  {
    if "//" <= line {
      assert line == [] + "//" + line[2..];
    }
    if StartsAsComment(line) {
      var space, rest :| line == space + "//" + rest && forall c | c in space :: IsSpace(c);
      assert |space| > 0 ==> line[0] in space;
    }
  }

  lemma {:induction false} FirstSlashes(s: string)
    ensures IndexOfSlashes(s).None? <==> !Occurs("// ", s)
    ensures IndexOfSlashes(s).Some? ==> !Occurs("// ", s[..IndexOfSlashes(s).value + 2])
  {
    OccursCons("// ", s);
    if |s| > 0 && !("// " <= s) {
      FirstSlashes(s[1..]);
      if IndexOfSlashes(s).Some? {
        var before := s[..IndexOfSlashes(s).value + 2];
        OccursCons("// ", before);
        assert before[1..] == s[1..][..IndexOfSlashes(s[1..]).value + 2];
        assert "// " <= before ==> "// " <= s;
      }
    }
  }

  /** Only what stands between the markers is touched. */
  ghost predicate IsTouched(lines: seq<string>, i: int)
    requires 0 <= i < |lines|
  {
    InRegion(lines, i) && !Starts(lines[i]) && !Occurs(END, lines[i])
  }

  /** A comment loses everything up to its first slashes with a space, and any other line gets them put before it. */
  ghost predicate LineBecomes(flag: Flag, lines: seq<string>, i: int, after: string)
    requires 0 <= i < |lines|
  {
    var line := lines[i];
    if !IsTouched(lines, i) || (StartsAsComment(line) <==> flag == Comment) then after == line
    else if flag == Comment then after == "// " + line
    else exists before :: line == before + "// " + after && !Occurs("// ", before + "//")
  }

  /** A comment to be taken away whose slashes no space follows. */
  ghost predicate Spoils(flag: Flag, lines: seq<string>, i: int)
    requires 0 <= i < |lines|
  {
    flag == Uncomment && IsTouched(lines, i) && StartsAsComment(lines[i]) && !Occurs("// ", lines[i])
  }

  lemma TouchedIff(lines: seq<string>, i: nat)
    requires i < |lines|
    ensures IsTouched(lines, i) <==> Inside(lines[..i]) && !IsMarker(lines[i])
  {
    InsideIff(lines, i);
    ContainsIff(lines[i], START);
    ContainsIff(lines[i], END);
  }

  lemma CutAtSlashes(line: string)
    ensures IndexOfSlashes(line).None? <==> !Occurs("// ", line)
    ensures IndexOfSlashes(line).Some? ==>
              var at := IndexOfSlashes(line).value;
              line == line[..at] + "// " + line[at + 3..] && !Occurs("// ", line[..at] + "//")
  {
    FirstSlashes(line);
    if IndexOfSlashes(line).Some? {
      var at := IndexOfSlashes(line).value;
      assert line[..at + 2] == line[..at] + "//";
    }
  }

  lemma OneLine(flag: Flag, lines: seq<string>, i: nat)
    requires i < |lines|
    ensures var r := Rewritten(flag, Inside(lines[..i]), lines[i]);
            (r.None? <==> Spoils(flag, lines, i)) && (r.Some? ==> LineBecomes(flag, lines, i, r.value))
  {
    TouchedIff(lines, i);
    IsCommentIff(lines[i]);
    CutAtSlashes(lines[i]);
  }

  /** A file is rewritten unless one of its lines spoils it, and then line by line, each by its place and text. */
  lemma {:induction false} RewriteIff(flag: Flag, lines: seq<string>, n: nat)
    requires n <= |lines|
    ensures var r := Rewrite(flag, lines[..n]);
            && (r.None? <==> exists i :: 0 <= i < n && Spoils(flag, lines, i))
            && (r.Some? ==> |r.value| == n && forall i :: 0 <= i < n ==> LineBecomes(flag, lines, i, r.value[i]))
  {
    if n > 0 {
      RewriteIff(flag, lines, n - 1);
      OneLine(flag, lines, n - 1);
      assert lines[..n][..n - 1] == lines[..n - 1];
    }
  }
}
