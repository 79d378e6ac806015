/** The `.env` rewrite of setup_spotify.py: the credentials read from the user
    are stripped, and when both are present the file's lines lose every
    earlier credential line, the last kept line gets its line break, and the
    two new credential lines are appended. The file is seen through
    `readlines`: a list of lines, each ending in its line break except
    possibly the last. */
module EnvFile {
  import opened Wrappers
  import opened Text

  const IdKey := "SPOTIFY_CLIENT_ID="
  const SecretKey := "SPOTIFY_CLIENT_SECRET="

  /** A line that sets one of the two credentials. */
  predicate IsKeyLine(line: string) {
    StartsWith(line, IdKey) || StartsWith(line, SecretKey)
  }

  /** The shape `readlines` gives: every line but the last ends in a line
      break. */
  predicate ReadlinesShaped(lines: seq<string>) {
    forall i :: 0 <= i < |lines| - 1 ==> EndsWith(lines[i], "\n")
  }

  predicate AllEndInNewline(lines: seq<string>) {
    forall i :: 0 <= i < |lines| ==> EndsWith(lines[i], "\n")
  }

  /** The lines that are not credential lines, in their order. */
  function Retained(lines: seq<string>): (kept: seq<string>)
    ensures |kept| <= |lines|
    ensures forall i :: 0 <= i < |kept| ==> !IsKeyLine(kept[i])
  {
    if lines == [] then []
    else
      var last := lines[|lines| - 1];
      Retained(lines[..|lines| - 1]) + (if IsKeyLine(last) then [] else [last])
  }

  /** The last line completed with a line break when it lacks one. */
  function WithNewline(lines: seq<string>): (fixed: seq<string>)
    ensures |fixed| == |lines|
    ensures forall i :: 0 <= i < |lines| - 1 ==> fixed[i] == lines[i]
    ensures lines != [] ==> EndsWith(fixed[|lines| - 1], "\n")
    ensures lines != [] && EndsWith(lines[|lines| - 1], "\n") ==> fixed == lines
    ensures lines != [] && !EndsWith(lines[|lines| - 1], "\n") ==> fixed[|lines| - 1] == lines[|lines| - 1] + "\n"
  {
    if lines != [] && !EndsWith(lines[|lines| - 1], "\n") then
      var last := lines[|lines| - 1] + "\n";
      assert last[|last| - 1..] == "\n";
      lines[|lines| - 1 := last]
    else lines
  }

  /** The two lines that set the credentials. */
  function KeyLines(id: string, secret: string): seq<string> {
    [IdKey + id + "\n", SecretKey + secret + "\n"]
  }

  /** The rewritten lines. */
  function Rewrite(lines: seq<string>, id: string, secret: string): seq<string> {
    WithNewline(Retained(lines)) + KeyLines(id, secret)
  }

  /** The credential lines are credential lines and end in a line break. */
  lemma {:induction false} KeyLinesShape(id: string, secret: string)
    ensures IsKeyLine(KeyLines(id, secret)[0]) && IsKeyLine(KeyLines(id, secret)[1])
    ensures AllEndInNewline(KeyLines(id, secret))
  {
    var a, b := IdKey + id + "\n", SecretKey + secret + "\n";
    assert a[..|IdKey|] == IdKey && a[|a| - 1..] == "\n";
    assert b[..|SecretKey|] == SecretKey && b[|b| - 1..] == "\n";
  }

  /** A line break added to a line that sets no credential does not make it
      set one: neither key contains a line break. */
  lemma {:induction false} NewlineKeepsNonKey(line: string)
    requires !IsKeyLine(line)
    ensures !IsKeyLine(line + "\n")
  {
    var l := line + "\n";
    assert |line| >= |IdKey| ==> l[..|IdKey|] == line[..|IdKey|];
    assert |line| >= |SecretKey| ==> l[..|SecretKey|] == line[..|SecretKey|];
    assert |line| < |SecretKey| ==> l[|line|] == '\n' != SecretKey[|line|];
    assert |line| < |IdKey| ==> l[|line|] == '\n' != IdKey[|line|];
  }

  /** Filtering splits over concatenation: lines keep their relative order. */
  lemma {:induction false} RetainedAppend(a: seq<string>, b: seq<string>)
    ensures Retained(a + b) == Retained(a) + Retained(b)
    decreases |b|
  {
    if b == [] {
      assert a + b == a;
    } else {
      var init := b[..|b| - 1];
      assert (a + b)[..|a + b| - 1] == a + init;
      RetainedAppend(a, init);
    }
  }

  /** A line is kept exactly when it was there and sets no credential. */
  lemma {:induction false} RetainedMembership(lines: seq<string>, x: string)
    ensures x in Retained(lines) <==> x in lines && !IsKeyLine(x)
    decreases |lines|
  {
    if lines != [] {
      var init := lines[..|lines| - 1];
      assert lines == init + [lines[|lines| - 1]];
      RetainedMembership(init, x);
    }
  }

  /** Lines without credential lines are all kept. */
  lemma {:induction false} RetainedKeepsClean(lines: seq<string>)
    requires forall i :: 0 <= i < |lines| ==> !IsKeyLine(lines[i])
    ensures Retained(lines) == lines
    decreases |lines|
  {
    if lines != [] {
      var init := lines[..|lines| - 1];
      RetainedKeepsClean(init);
      assert init + [lines[|lines| - 1]] == lines;
    }
  }

  /** Filtering keeps the `readlines` shape: a kept line lacking its break
      can only be the file's last line, which stays last. */
  lemma {:induction false} RetainedKeepsShape(lines: seq<string>)
    requires ReadlinesShaped(lines)
    ensures ReadlinesShaped(Retained(lines))
  {
    if lines != [] {
      var init := lines[..|lines| - 1];
      assert AllEndInNewline(init);
      RetainedEndInNewline(init);
    }
  }

  lemma {:induction false} RetainedEndInNewline(lines: seq<string>)
    requires AllEndInNewline(lines)
    ensures AllEndInNewline(Retained(lines))
    decreases |lines|
  {
    if lines != [] {
      var init := lines[..|lines| - 1];
      RetainedEndInNewline(init);
    }
  }

  /** The completed last line sets no credential when the lines set none. */
  lemma {:induction false} WithNewlineKeepsNonKey(lines: seq<string>)
    requires forall i :: 0 <= i < |lines| ==> !IsKeyLine(lines[i])
    ensures forall i :: 0 <= i < |lines| ==> !IsKeyLine(WithNewline(lines)[i])
  {
    if lines != [] && !EndsWith(lines[|lines| - 1], "\n") {
      NewlineKeepsNonKey(lines[|lines| - 1]);
    }
  }

  /** After the rewrite only the two appended lines set a credential, the
      other lines are the kept ones in their order (the last one completed
      with a line break), and there are exactly two more of them than were
      kept. */
  lemma {:induction false} RewriteShape(lines: seq<string>, id: string, secret: string)
    ensures |Rewrite(lines, id, secret)| == |Retained(lines)| + 2
    ensures Rewrite(lines, id, secret)[|Retained(lines)|..] == KeyLines(id, secret)
    ensures forall i :: 0 <= i < |Retained(lines)| ==> !IsKeyLine(Rewrite(lines, id, secret)[i])
    ensures forall i :: 0 <= i < |Retained(lines)| - 1 ==> Rewrite(lines, id, secret)[i] == Retained(lines)[i]
    ensures var k := Retained(lines);
      k != [] ==> Rewrite(lines, id, secret)[|k| - 1] ==
                    (if EndsWith(k[|k| - 1], "\n") then k[|k| - 1] else k[|k| - 1] + "\n")
  {
    WithNewlineKeepsNonKey(Retained(lines));
  }

  /** Read from a file as `readlines` splits it, every rewritten line ends in
      a line break. */
  lemma {:induction false} RewriteEndsLines(lines: seq<string>, id: string, secret: string)
    requires ReadlinesShaped(lines)
    ensures AllEndInNewline(Rewrite(lines, id, secret))
  {
    var kept := Retained(lines);
    RetainedKeepsShape(lines);
    KeyLinesShape(id, secret);
    var fixed := WithNewline(kept);
    assert AllEndInNewline(fixed) by {
      forall i | 0 <= i < |fixed| ensures EndsWith(fixed[i], "\n") {
        if i < |kept| - 1 {
          assert fixed[i] == kept[i];
        }
      }
    }
    var r := Rewrite(lines, id, secret);
    forall i | 0 <= i < |r| ensures EndsWith(r[i], "\n") {
      if i < |fixed| {
        assert r[i] == fixed[i];
      } else {
        assert r[i] == KeyLines(id, secret)[i - |fixed|];
      }
    }
  }

  /** Rewriting twice with the same credentials gives the lines of one
      rewrite. */
  lemma {:induction false} RewriteIdempotent(lines: seq<string>, id: string, secret: string)
    ensures Rewrite(Rewrite(lines, id, secret), id, secret) == Rewrite(lines, id, secret)
  {
    var fixed := WithNewline(Retained(lines));
    var keys := KeyLines(id, secret);
    WithNewlineKeepsNonKey(Retained(lines));
    RetainedAppend(fixed, keys);
    RetainedKeepsClean(fixed);
    KeyLinesShape(id, secret);
    assert keys == [keys[0]] + [keys[1]];
    assert keys[..1] == [keys[0]];
    assert Retained(keys) == [];
  }

  /** The filter, line break fix and appends of the rewrite, on a list the
      method updates step by step. */
  method RewriteLines(lines: seq<string>, id: string, secret: string) returns (out: seq<string>)
    ensures out == Rewrite(lines, id, secret)
  {
    out := [];
    var i := 0;
    while i < |lines|
      invariant 0 <= i <= |lines|
      invariant out == Retained(lines[..i])
    {
      assert lines[..i + 1][..i] == lines[..i];
      if !(StartsWith(lines[i], IdKey) || StartsWith(lines[i], SecretKey)) {
        out := out + [lines[i]];
      }
      i := i + 1;
    }
    assert lines[..|lines|] == lines;
    if |out| > 0 && !EndsWith(out[|out| - 1], "\n") {
      out := out[|out| - 1 := out[|out| - 1] + "\n"];
    }
    out := out + [IdKey + id + "\n"];
    out := out + [SecretKey + secret + "\n"];
  }

  /** The `.env` file: its lines as `readlines` gives them, or `None` when
      the file does not exist. */
  class DotEnv {
    var lines: Option<seq<string>>

    constructor (lines: Option<seq<string>>)
      ensures this.lines == lines
    {
      this.lines := lines;
    }

    /** `setup_spotify` once the two answers are read: nothing is written when
        either stripped answer is empty; otherwise the file, or an empty list
        when it is missing, is rewritten with the stripped credentials. */
    method Setup(rawId: string, rawSecret: string) returns (saved: bool)
      modifies this
      ensures saved <==> Strip(rawId) != "" && Strip(rawSecret) != ""
      ensures !saved ==> lines == old(lines)
      ensures saved ==>
                lines == Some(Rewrite(if old(lines).Some? then old(lines).value else [], Strip(rawId), Strip(rawSecret)))
    {
      var id := Strip(rawId);
      var secret := Strip(rawSecret);
      if id == "" || secret == "" {
        return false;
      }
      var current: seq<string> := [];
      if lines.Some? {
        current := lines.value;
      }
      var rewritten := RewriteLines(current, id, secret);
      lines := Some(rewritten);
      saved := true;
    }
  }
}
