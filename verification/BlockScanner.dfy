// `extract_block_from_content`: the scan from a matched block header to its closing brace.
// `text` is the file content from the start of the match on.

module BlockScanner {
  import opened Wrappers

  // How many backslashes stand directly before position i.
  ghost function BackslashRun(body: string, i: nat): nat
    requires i <= |body|
  {
    if i > 0 && body[i - 1] == '\\' then 1 + BackslashRun(body, i - 1) else 0
  }

  // A quote delimits a string unless an odd run of backslashes escapes it.
  ghost predicate IsDelimiter(body: string, i: nat)
    requires i < |body|
  {
    body[i] == '"' && BackslashRun(body, i) % 2 == 0
  }

  ghost function Delimiters(body: string, i: nat): nat
    requires i <= |body|
  {
    if i == 0 then 0 else Delimiters(body, i - 1) + (if IsDelimiter(body, i - 1) then 1 else 0)
  }

  ghost predicate Quoted(body: string, i: nat)
    requires i <= |body|
  {
    Delimiters(body, i) % 2 == 1
  }

  // Nesting depth before position i of the text that follows the opening brace.
  ghost function Depth(body: string, i: nat): int
    requires i <= |body|
  {
    if i == 0 then 1
    else if Quoted(body, i - 1) then Depth(body, i - 1)
    else if body[i - 1] == '{' then Depth(body, i - 1) + 1
    else if body[i - 1] == '}' then Depth(body, i - 1) - 1
    else Depth(body, i - 1)
  }

  ghost predicate OpensAt(text: string, o: nat) {
    && o < |text|
    && text[o] == '{'
    && forall k | 0 <= k < o :: text[k] != '{'
  }

  // Depth after the first e characters of a text whose block opens at o.
  ghost function DepthAt(text: string, o: nat, e: nat): int
    requires o < e <= |text|
  {
    Depth(text[o + 1..], e - o - 1)
  }

  // The block opened at o is closed by the character before e, for the first time.
  ghost predicate ClosesFirst(text: string, o: nat, e: nat)
    requires OpensAt(text, o)
  {
    && o < e <= |text|
    && DepthAt(text, o, e) == 0
    && forall j | o < j < e :: DepthAt(text, o, j) >= 1
  }

  // The scanner's three variables agree with the automaton before position i of the body.
  ghost predicate Tracks(body: string, i: nat, braceCount: int, inString: bool, escape: bool) {
    && i <= |body|
    && braceCount == Depth(body, i)
    && inString == Quoted(body, i)
    && escape == (BackslashRun(body, i) % 2 == 1)
  }

  // One character of the loop body.
  method Scan(ghost body: string, ghost i: nat, c: char, braceCount0: int, inString0: bool, escape0: bool)
    returns (braceCount: int, inString: bool, escape: bool)
    requires i < |body| && c == body[i]
    requires Tracks(body, i, braceCount0, inString0, escape0)
    ensures Tracks(body, i + 1, braceCount, inString, escape)
    ensures braceCount >= braceCount0 - 1
  {
    braceCount, inString, escape := braceCount0, inString0, escape0;
    if c == '"' && !escape {
      inString := !inString;
    }
    if !inString {
      if c == '{' {
        braceCount := braceCount + 1;
      } else if c == '}' {
        braceCount := braceCount - 1;
      }
    }
    if c == '\\' {
      escape := !escape;
    } else {
      escape := false;
    }
  }

  method ExtractBlock(text: string) returns (block: Option<string>)
    ensures block.Some? ==>
      exists o: nat, e: nat :: OpensAt(text, o) && ClosesFirst(text, o, e) && block.value == text[..e]
    ensures block.None? ==>
      forall o: nat, e: nat :: OpensAt(text, o) && o < e <= |text| ==> DepthAt(text, o, e) != 0
  {
    var braceCount := 0;
    var inString := false;
    var escape := false;
    var foundStart := false;
    var end := 0;
    ghost var o := 0;
    var i := 0;

    while i < |text|
      invariant 0 <= i <= |text|
      invariant end == 0
      invariant !foundStart ==> forall k | 0 <= k < i :: text[k] != '{'
      invariant foundStart ==> OpensAt(text, o) && o < i
      invariant foundStart ==> Tracks(text[o + 1..], i - o - 1, braceCount, inString, escape)
      invariant foundStart ==> forall j | o < j <= i :: DepthAt(text, o, j) >= 1
      invariant !foundStart ==> !inString && !escape
    {
      var c := text[i];
      if !foundStart {
        if c == '{' {
          foundStart := true;
          braceCount := 1;
          o := i;
        }
        i := i + 1;
        continue;
      }
      assert DepthAt(text, o, i) >= 1;
      braceCount, inString, escape := Scan(text[o + 1..], i - o - 1, c, braceCount, inString, escape);
      assert DepthAt(text, o, i + 1) == braceCount;
      if braceCount == 0 {
        end := i + 1;
        break;
      }
      i := i + 1;
    }

    if end > 0 {
      assert ClosesFirst(text, o, end);
      block := Some(text[..end]);
    } else {
      block := None;
    }
  }

  // The two outcomes exclude each other, so the result is determined by the text alone:
  // depth moves by at most one per character, hence it cannot skip zero.
  lemma {:induction false} DepthIsContinuous(body: string, i: nat)
    requires i <= |body|
    requires forall j: nat | j <= i :: Depth(body, j) != 0
    ensures Depth(body, i) >= 1
  {
    if i > 0 {
      DepthIsContinuous(body, i - 1);
    }
  }

  // Inside a string nothing nests: a stretch between two delimiters leaves the depth alone.
  lemma {:induction false} QuotedStretchKeepsDepth(body: string, i: nat, j: nat)
    requires i <= j <= |body|
    requires forall k | i <= k < j :: Quoted(body, k)
    ensures Depth(body, j) == Depth(body, i)
  {
    if i < j {
      QuotedStretchKeepsDepth(body, i, j - 1);
    }
  }

  // -- The specification by counting -----------------------------------------------------------

  // The backslashes directly before a position, however they are counted.
  ghost predicate BackslashesBefore(body: string, i: nat, n: nat)
    requires i <= |body|
  {
    && n <= i
    && (forall k | i - n <= k < i :: body[k] == '\\')
    && (n < i ==> body[i - n - 1] != '\\')
  }

  lemma {:induction false} RunIsBackslashes(body: string, i: nat, n: nat)
    requires i <= |body| && BackslashesBefore(body, i, n)
    ensures BackslashRun(body, i) == n
  {
    if n > 0 {
      RunIsBackslashes(body, i - 1, n - 1);
    }
  }

  // A quote is a delimiter exactly when an even number of backslashes stands before it.
  lemma DelimiterIff(body: string, i: nat, n: nat)
    requires i < |body| && BackslashesBefore(body, i, n)
    ensures IsDelimiter(body, i) <==> body[i] == '"' && n % 2 == 0
  {
    RunIsBackslashes(body, i, n);
  }

  ghost function DelimitersBefore(body: string, i: nat): set<nat>
    requires i <= |body|
  {
    set k: nat | k < i && IsDelimiter(body, k)
  }

  ghost function BracesBefore(body: string, i: nat, brace: char): set<nat>
    requires i <= |body|
  {
    set k: nat | k < i && body[k] == brace && !Quoted(body, k)
  }

  // A position is inside a string exactly after an odd number of delimiters.
  lemma {:induction false} DelimitersAreCounted(body: string, i: nat)
    requires i <= |body|
    ensures Quoted(body, i) <==> |DelimitersBefore(body, i)| % 2 == 1
    ensures Delimiters(body, i) == |DelimitersBefore(body, i)|
  {
    if i > 0 {
      hide IsDelimiter;
      DelimitersAreCounted(body, i - 1);
      OneMoreDelimiter(body, i);
      hide DelimitersBefore;
    }
  }

  lemma OneMoreDelimiter(body: string, i: nat)
    requires 0 < i <= |body|
    ensures |DelimitersBefore(body, i)| ==
      |DelimitersBefore(body, i - 1)| + if IsDelimiter(body, i - 1) then 1 else 0
  {
    hide IsDelimiter;
    var was := DelimitersBefore(body, i - 1);
    assert DelimitersBefore(body, i) == if IsDelimiter(body, i - 1) then was + {i - 1} else was;
    assert i - 1 !in was;
  }

  // The depth is the number of opening braces outside strings, the first one included, less that
  // of the closing ones.
  lemma {:induction false} DepthIsCounted(body: string, i: nat)
    requires i <= |body|
    ensures Depth(body, i) == 1 + |BracesBefore(body, i, '{')| - |BracesBefore(body, i, '}')|
  {
    if i > 0 {
      hide Quoted;
      DepthIsCounted(body, i - 1);
      OneMoreBrace(body, i, '{');
      OneMoreBrace(body, i, '}');
      hide BracesBefore;
    }
  }

  lemma OneMoreBrace(body: string, i: nat, brace: char)
    requires 0 < i <= |body|
    ensures |BracesBefore(body, i, brace)| ==
      |BracesBefore(body, i - 1, brace)| + if body[i - 1] == brace && !Quoted(body, i - 1) then 1 else 0
  {
    hide Quoted;
    var was := BracesBefore(body, i - 1, brace);
    assert BracesBefore(body, i, brace) ==
      if body[i - 1] == brace && !Quoted(body, i - 1) then was + {i - 1} else was;
    assert i - 1 !in was;
  }
}
