/** The configuration rewrite the TURN launcher performs before starting the
    relay (turn/simple_turn_server.py, `update_config` and
    `check_environment`). The file read and write around it are not modelled:
    the rewrite is a function from the configuration text and the two
    environment values to the new text. Text operations follow Python's
    `str.replace`, `str.split`, `str.startswith` and `str.join`. */
module TurnConfig {
  import opened Common

  const PasswordPlaceholder: Text := "${TURN_PASSWORD}"
  const ExternalIpPlaceholder: Text := "$EXTERNAL_IP"
  const DefaultPassword: Text := "turn123456"
  const ExternalIpKey: Text := "external-ip="
  const AnyAddress: Text := "0.0.0.0"
  const Newline: Text := "\n"

  // ---------------------------------------------------------------------------
  // Python string primitives
  // ---------------------------------------------------------------------------

  /** `s.startswith(p)` */
  predicate StartsWith(s: Text, p: Text) {
    |p| <= |s| && s[..|p|] == p
  }

  /** `p in s`, the substring test. */
  predicate Contains(s: Text, p: Text)
    decreases |s|
  {
    StartsWith(s, p) || (|s| > 0 && Contains(s[1..], p))
  }

  /** The combined length of the pieces. */
  function TotalLength(pieces: seq<Text>): nat
    decreases |pieces|
  {
    if |pieces| == 0 then 0 else |pieces[0]| + TotalLength(pieces[1..])
  }

  /** `s.replace(pat, rep)`: scans left to right and replaces each
      non-overlapping occurrence of `pat`. Each occurrence that `split` finds
      is replaced, so the length changes by the difference in length once per
      occurrence. */
  function ReplaceAll(s: Text, pat: Text, rep: Text): (r: Text)
    requires |pat| > 0
    ensures |r| == |s| + (|SplitOn(s, pat)| - 1) * (|rep| - |pat|)
    decreases |s|
  {
    if |s| < |pat| then s
    else if s[..|pat|] == pat then
      var n := |SplitOn(s[|pat|..], pat)|;
      assert (n - 1) * (|rep| - |pat|) + (|rep| - |pat|) == n * (|rep| - |pat|);
      rep + ReplaceAll(s[|pat|..], pat, rep)
    else [s[0]] + ReplaceAll(s[1..], pat, rep)
  }

  /** `s.split(sep)`: the pieces between the occurrences of `sep`, found
      left to right; never an empty list. The pieces and the separators
      between them account for every character of `s`. */
  function SplitOn(s: Text, sep: Text): (pieces: seq<Text>)
    requires |sep| > 0
    ensures |pieces| > 0
    ensures |s| == TotalLength(pieces) + (|pieces| - 1) * |sep|
    decreases |s|
  {
    if |s| < |sep| then
      assert [s][1..] == [];
      [s]
    else if s[..|sep|] == sep then
      var rest := SplitOn(s[|sep|..], sep);
      assert ([[]] + rest)[1..] == rest;
      assert (|rest| - 1) * |sep| + |sep| == |rest| * |sep|;
      [[]] + rest
    else
      var rest := SplitOn(s[1..], sep);
      assert ([[s[0]] + rest[0]] + rest[1..])[1..] == rest[1..];
      [[s[0]] + rest[0]] + rest[1..]
  }

  /** `sep.join(pieces)`: the pieces with one separator between each two. */
  function Join(pieces: seq<Text>, sep: Text): (joined: Text)
    ensures |pieces| > 0 ==> |joined| == TotalLength(pieces) + (|pieces| - 1) * |sep|
    decreases |pieces|
  {
    if |pieces| == 0 then []
    else if |pieces| == 1 then
      assert pieces[1..] == [];
      pieces[0]
    else
      assert (|pieces| - 2) * |sep| + |sep| == (|pieces| - 1) * |sep|;
      pieces[0] + sep + Join(pieces[1..], sep)
  }

  /** Number of occurrences of character `c` in `s`. */
  function CountChar(s: Text, c: char): nat
    decreases |s|
  {
    if |s| == 0 then 0 else (if s[0] == c then 1 else 0) + CountChar(s[1..], c)
  }

  // ---------------------------------------------------------------------------
  // The rewrite (turn/simple_turn_server.py:43-55)
  // ---------------------------------------------------------------------------

  /** `[line for line in lines if not line.startswith('external-ip=')]`:
      no kept line begins with the key, and the filter drops nothing exactly
      when no line begins with it. */
  function KeepLines(lines: seq<Text>): (kept: seq<Text>)
    ensures |kept| <= |lines|
    ensures forall i | 0 <= i < |kept| :: !StartsWith(kept[i], ExternalIpKey)
    ensures |kept| == |lines| <==> forall i | 0 <= i < |lines| :: !StartsWith(lines[i], ExternalIpKey)
    decreases |lines|
  {
    if |lines| == 0 then []
    else if StartsWith(lines[0], ExternalIpKey) then KeepLines(lines[1..])
    else [lines[0]] + KeepLines(lines[1..])
  }

  /** The guard `external_ip and external_ip != "0.0.0.0"`. */
  predicate UsesExternalIp(externalIp: Option<Text>) {
    externalIp.Some? && externalIp.value != [] && externalIp.value != AnyAddress
  }

  /** The text after the password substitution; an unset variable falls back
      to the built-in default, a variable set to the empty string does not. */
  function WithPassword(config: Text, password: Option<Text>): Text {
    ReplaceAll(config, PasswordPlaceholder, password.GetOr(DefaultPassword))
  }

  /** The whole rewrite: `password` is `TURN_PASSWORD` and `externalIp` is
      `EXTERNAL_IP` from the environment, `None` when unset. Without a usable
      address, no line of the written file begins with `external-ip=`. */
  function UpdateConfig(config: Text, password: Option<Text>, externalIp: Option<Text>): (updated: Text)
    ensures !UsesExternalIp(externalIp) ==>
              forall line | line in SplitOn(updated, Newline) :: !StartsWith(line, ExternalIpKey)
  {
    var text := WithPassword(config, password);
    if UsesExternalIp(externalIp) then ReplaceAll(text, ExternalIpPlaceholder, externalIp.value)
    else
      FilterLeavesNoKeyLine(text);
      Join(KeepLines(SplitOn(text, Newline)), Newline)
  }

  /** `check_environment` (turn/simple_turn_server.py:19-30): the launcher
      proceeds only when `TURN_PASSWORD` is set to a non-empty value. */
  function CheckEnvironment(password: Option<Text>): (ok: bool)
    ensures ok <==> password != None && password != Some([])
  {
    password.Some? && password.value != []
  }

  // ---------------------------------------------------------------------------
  // What replace, split and join mean
  // ---------------------------------------------------------------------------

  lemma JoinCons(p: Text, ps: seq<Text>, sep: Text)
    requires |ps| > 0
    ensures Join([p] + ps, sep) == p + sep + Join(ps, sep)
  {
    assert ([p] + ps)[1..] == ps;
  }

  /** Extending the first piece extends the joined text at the front. */
  lemma JoinExtendFirst(c: char, ps: seq<Text>, sep: Text)
    requires |ps| > 0
    ensures Join([[c] + ps[0]] + ps[1..], sep) == [c] + Join(ps, sep)
  {
    if |ps| > 1 {
      JoinCons([c] + ps[0], ps[1..], sep);
      JoinCons(ps[0], ps[1..], sep);
      assert [ps[0]] + ps[1..] == ps;
    } else {
      assert [[c] + ps[0]] + ps[1..] == [[c] + ps[0]];
    }
  }

  /** `s.replace(pat, rep) == rep.join(s.split(pat))`: the text between the
      occurrences of `pat` is kept in order and each occurrence becomes `rep`. */
  lemma {:induction false} ReplaceIsSplitJoin(s: Text, pat: Text, rep: Text)
    requires |pat| > 0
    ensures ReplaceAll(s, pat, rep) == Join(SplitOn(s, pat), rep)
    decreases |s|
  {
    if |s| < |pat| {
    } else if s[..|pat|] == pat {
      ReplaceIsSplitJoin(s[|pat|..], pat, rep);
      JoinCons([], SplitOn(s[|pat|..], pat), rep);
    } else {
      ReplaceIsSplitJoin(s[1..], pat, rep);
      JoinExtendFirst(s[0], SplitOn(s[1..], pat), rep);
    }
  }

  /** Replacing a pattern by itself changes nothing. */
  lemma {:induction false} ReplaceBySelf(s: Text, pat: Text)
    requires |pat| > 0
    ensures ReplaceAll(s, pat, pat) == s
    decreases |s|
  {
    if |s| < |pat| {
    } else if s[..|pat|] == pat {
      ReplaceBySelf(s[|pat|..], pat);
      assert s == s[..|pat|] + s[|pat|..];
    } else {
      ReplaceBySelf(s[1..], pat);
      assert s == [s[0]] + s[1..];
    }
  }

  /** Round trip: joining the pieces of a split with the same separator gives
      the original text back. */
  lemma SplitJoinRoundTrip(s: Text, sep: Text)
    requires |sep| > 0
    ensures Join(SplitOn(s, sep), sep) == s
  {
    ReplaceIsSplitJoin(s, sep, sep);
    ReplaceBySelf(s, sep);
  }

  /** A text without the pattern is returned unchanged by `replace`. */
  lemma {:induction false} ReplaceAbsent(s: Text, pat: Text, rep: Text)
    requires |pat| > 0
    requires !Contains(s, pat)
    ensures ReplaceAll(s, pat, rep) == s
    decreases |s|
  {
    if |s| >= |pat| {
      ReplaceAbsent(s[1..], pat, rep);
      assert s == [s[0]] + s[1..];
    }
  }

  /** The pieces of a split on the newline hold no newline. */
  lemma {:induction false} LinesHaveNoNewline(s: Text)
    ensures forall line | line in SplitOn(s, Newline) :: '\n' !in line
    decreases |s|
  {
    if |s| >= 1 {
      if s[..1] == Newline {
        LinesHaveNoNewline(s[1..]);
      } else {
        LinesHaveNoNewline(s[1..]);
        var rest := SplitOn(s[1..], Newline);
        assert s[0] != '\n' by { assert s[..1] == [s[0]]; }
        assert forall line | line in rest[1..] :: line in rest;
      }
    }
  }

  /** A text shorter than the pattern cannot contain it. */
  lemma {:induction false} ShortLacks(s: Text, p: Text)
    requires |s| < |p|
    ensures !Contains(s, p)
    decreases |s|
  {
    if |s| > 0 {
      ShortLacks(s[1..], p);
    }
  }

  /** The first piece of a split is the text up to the first occurrence. */
  lemma {:induction false} FirstPieceIsPrefix(s: Text, sep: Text)
    requires |sep| > 0
    ensures StartsWith(s, SplitOn(s, sep)[0])
    decreases |s|
  {
    if |s| >= |sep| && s[..|sep|] != sep {
      FirstPieceIsPrefix(s[1..], sep);
      var first := SplitOn(s[1..], sep)[0];
      assert s[..|first| + 1] == [s[0]] + s[1..][..|first|];
    }
  }

  /** `split` cuts at every occurrence: no piece contains the separator. */
  lemma {:induction false} PiecesAvoidSep(s: Text, sep: Text)
    requires |sep| > 0
    ensures forall piece | piece in SplitOn(s, sep) :: !Contains(piece, sep)
    decreases |s|
  {
    if |s| < |sep| {
      ShortLacks(s, sep);
    } else if s[..|sep|] == sep {
      PiecesAvoidSep(s[|sep|..], sep);
      ShortLacks([], sep);
    } else {
      PiecesAvoidSep(s[1..], sep);
      var rest := SplitOn(s[1..], sep);
      var first := [s[0]] + rest[0];
      assert rest[0] in rest;
      FirstPieceIsPrefix(s[1..], sep);
      assert first == s[..|first|];
      assert !Contains(first, sep) by {
        assert first[1..] == rest[0];
      }
      assert forall piece | piece in rest[1..] :: piece in rest;
    }
  }

  /** A text without a newline is a single line. */
  lemma {:induction false} SplitSingleLine(a: Text)
    requires '\n' !in a
    ensures SplitOn(a, Newline) == [a]
    decreases |a|
  {
    if |a| >= 1 {
      assert a[..1] == [a[0]];
      SplitSingleLine(a[1..]);
      assert [a[0]] + a[1..] == a;
    }
  }

  /** Splitting `a + "\n" + b` where `a` has no newline yields `a` followed by
      the lines of `b`. */
  lemma {:induction false} SplitFirstLine(a: Text, b: Text)
    requires '\n' !in a
    ensures SplitOn(a + Newline + b, Newline) == [a] + SplitOn(b, Newline)
    decreases |a|
  {
    var s := a + Newline + b;
    if |a| == 0 {
      assert s == Newline + b;
      assert s[..1] == Newline;
      assert s[1..] == b;
    } else {
      assert s[..1] == [a[0]];
      assert s[1..] == a[1..] + Newline + b;
      SplitFirstLine(a[1..], b);
      assert [a[0]] + a[1..] == a;
    }
  }

  /** Round trip in the other direction: re-splitting the join of newline-free
      lines gives the lines back (for a non-empty list; Python splits the
      empty text into one empty line). */
  lemma {:induction false} JoinSplitRoundTrip(lines: seq<Text>)
    requires |lines| > 0
    requires forall line | line in lines :: '\n' !in line
    ensures SplitOn(Join(lines, Newline), Newline) == lines
    decreases |lines|
  {
    if |lines| == 1 {
      SplitSingleLine(lines[0]);
    } else {
      assert lines[0] in lines;
      assert forall line | line in lines[1..] :: line in lines;
      JoinSplitRoundTrip(lines[1..]);
      SplitFirstLine(lines[0], Join(lines[1..], Newline));
      assert [lines[0]] + lines[1..] == lines;
    }
  }

  /** The number of lines is one more than the number of newlines. */
  lemma {:induction false} LineCount(s: Text)
    ensures |SplitOn(s, Newline)| == CountChar(s, '\n') + 1
    decreases |s|
  {
    if |s| >= 1 {
      assert s[..1] == [s[0]];
      LineCount(s[1..]);
    }
  }

  lemma CountCharAppend(a: Text, b: Text, c: char)
    ensures CountChar(a + b, c) == CountChar(a, c) + CountChar(b, c)
    decreases |a|
  {
    if |a| > 0 {
      assert (a + b)[1..] == a[1..] + b;
      CountCharAppend(a[1..], b, c);
    } else {
      assert a + b == b;
    }
  }

  /** A replacement whose pattern and replacement hold no newline keeps the
      number of newlines, hence the number of lines. */
  lemma {:induction false} ReplaceKeepsNewlines(s: Text, pat: Text, rep: Text)
    requires |pat| > 0 && '\n' !in pat && '\n' !in rep
    ensures CountChar(ReplaceAll(s, pat, rep), '\n') == CountChar(s, '\n')
    decreases |s|
  {
    if |s| < |pat| {
    } else if s[..|pat|] == pat {
      ReplaceKeepsNewlines(s[|pat|..], pat, rep);
      NoNewlineCount(pat);
      NoNewlineCount(rep);
      CountCharAppend(rep, ReplaceAll(s[|pat|..], pat, rep), '\n');
      CountCharAppend(pat, s[|pat|..], '\n');
      assert s == pat + s[|pat|..];
    } else {
      ReplaceKeepsNewlines(s[1..], pat, rep);
      CountCharAppend([s[0]], ReplaceAll(s[1..], pat, rep), '\n');
    }
  }

  lemma NoNewlineCount(t: Text)
    requires '\n' !in t
    ensures CountChar(t, '\n') == 0
    decreases |t|
  {
    if |t| > 0 {
      assert t[0] in t;
      assert forall c | c in t[1..] :: c in t;
      NoNewlineCount(t[1..]);
    }
  }

  // ---------------------------------------------------------------------------
  // What the line filter means
  // ---------------------------------------------------------------------------

  /** A line survives the filter exactly when it does not begin with
      `external-ip=`. */
  lemma {:induction false} KeepLinesMembers(lines: seq<Text>, line: Text)
    ensures line in KeepLines(lines) <==> line in lines && !StartsWith(line, ExternalIpKey)
    decreases |lines|
  {
    if |lines| > 0 {
      KeepLinesMembers(lines[1..], line);
      assert lines == [lines[0]] + lines[1..];
    }
  }

  /** Order is preserved: filtering a concatenation filters each part and
      keeps them in sequence. */
  lemma {:induction false} KeepLinesAppend(a: seq<Text>, b: seq<Text>)
    ensures KeepLines(a + b) == KeepLines(a) + KeepLines(b)
    decreases |a|
  {
    if |a| == 0 {
      assert a + b == b;
    } else {
      assert (a + b)[0] == a[0];
      assert (a + b)[1..] == a[1..] + b;
      KeepLinesAppend(a[1..], b);
    }
  }

  /** Lines none of which begins with `external-ip=` pass unchanged. */
  lemma {:induction false} KeepLinesIdentity(lines: seq<Text>)
    requires forall line | line in lines :: !StartsWith(line, ExternalIpKey)
    ensures KeepLines(lines) == lines
    decreases |lines|
  {
    if |lines| > 0 {
      assert lines[0] in lines;
      assert forall line | line in lines[1..] :: line in lines;
      KeepLinesIdentity(lines[1..]);
      assert [lines[0]] + lines[1..] == lines;
    }
  }

  /** A line indented before `external-ip=` is kept, whatever the indent
      and the value: the test is a prefix match on the raw line. */
  lemma IndentedKeyKept(indent: Text, value: Text)
    requires |indent| > 0 && (indent[0] == ' ' || indent[0] == '\t')
    ensures var line := indent + ExternalIpKey + value;
            KeepLines([line]) == [line]
  {
    var line := indent + ExternalIpKey + value;
    assert !StartsWith(line, ExternalIpKey) by {
      assert line[0] == indent[0] && ExternalIpKey[0] == 'e';
    }
  }

  // ---------------------------------------------------------------------------
  // What the rewrite does
  // ---------------------------------------------------------------------------

  /** Every occurrence of `${TURN_PASSWORD}` becomes the environment value, or
      `turn123456` when the variable is unset: the configuration is a list of
      placeholder-free pieces joined by the placeholder, and the result is the
      same pieces, in order, joined by the value. */
  lemma PasswordSubstituted(config: Text, password: Option<Text>)
    ensures var pieces := SplitOn(config, PasswordPlaceholder);
            && Join(pieces, PasswordPlaceholder) == config
            && (forall piece | piece in pieces :: !Contains(piece, PasswordPlaceholder))
            && WithPassword(config, password)
               == Join(pieces, if password.Some? then password.value else DefaultPassword)
  {
    ReplaceIsSplitJoin(config, PasswordPlaceholder, password.GetOr(DefaultPassword));
    SplitJoinRoundTrip(config, PasswordPlaceholder);
    PiecesAvoidSep(config, PasswordPlaceholder);
  }

  /** In the launcher, `check_environment` runs first and stops on failure, so
      the default password is never what gets substituted. */
  lemma CheckedPasswordIsUsed(config: Text, password: Option<Text>)
    requires CheckEnvironment(password)
    ensures WithPassword(config, password) == ReplaceAll(config, PasswordPlaceholder, password.value)
  {
  }

  /** With a usable external address every `$EXTERNAL_IP` becomes that
      address: the text is placeholder-free pieces joined by the placeholder,
      and the result joins the same pieces by the address. When the address
      holds no newline no line is removed. */
  lemma ExternalIpSubstituted(config: Text, password: Option<Text>, externalIp: Option<Text>)
    requires UsesExternalIp(externalIp)
    ensures var pieces := SplitOn(WithPassword(config, password), ExternalIpPlaceholder);
            && Join(pieces, ExternalIpPlaceholder) == WithPassword(config, password)
            && (forall piece | piece in pieces :: !Contains(piece, ExternalIpPlaceholder))
            && UpdateConfig(config, password, externalIp) == Join(pieces, externalIp.value)
    ensures '\n' !in externalIp.value ==>
              (|SplitOn(UpdateConfig(config, password, externalIp), Newline)|
               == |SplitOn(WithPassword(config, password), Newline)|)
  {
    var text := WithPassword(config, password);
    ReplaceIsSplitJoin(text, ExternalIpPlaceholder, externalIp.value);
    SplitJoinRoundTrip(text, ExternalIpPlaceholder);
    PiecesAvoidSep(text, ExternalIpPlaceholder);
    if '\n' !in externalIp.value {
      ReplaceKeepsNewlines(text, ExternalIpPlaceholder, externalIp.value);
      LineCount(text);
      LineCount(UpdateConfig(config, password, externalIp));
    }
  }

  /** Without a usable external address the output lines are exactly the
      input lines that do not begin with `external-ip=`, in their order
      (`UpdateConfig` itself promises that none of them begins with it). */
  lemma ExternalIpLinesDropped(config: Text, password: Option<Text>, externalIp: Option<Text>)
    requires !UsesExternalIp(externalIp)
    ensures var kept := KeepLines(SplitOn(WithPassword(config, password), Newline));
            |kept| > 0 ==> SplitOn(UpdateConfig(config, password, externalIp), Newline) == kept
  {
    var lines := SplitOn(WithPassword(config, password), Newline);
    var kept := KeepLines(lines);
    LinesHaveNoNewline(WithPassword(config, password));
    forall line | line in kept ensures '\n' !in line {
      KeepLinesMembers(lines, line);
    }
    if |kept| > 0 {
      JoinSplitRoundTrip(kept);
    }
  }

  /** Splitting the filtered, re-joined text finds no line that begins with
      `external-ip=`, also when every line was dropped (Python splits the
      empty text into one empty line). */
  lemma FilterLeavesNoKeyLine(text: Text)
    ensures forall line | line in SplitOn(Join(KeepLines(SplitOn(text, Newline)), Newline), Newline)
              :: !StartsWith(line, ExternalIpKey)
  {
    var lines := SplitOn(text, Newline);
    var kept := KeepLines(lines);
    LinesHaveNoNewline(text);
    forall line | line in kept ensures '\n' !in line && !StartsWith(line, ExternalIpKey) {
      KeepLinesMembers(lines, line);
    }
    if |kept| > 0 {
      JoinSplitRoundTrip(kept);
    } else {
      assert Join(kept, Newline) == [];
      assert SplitOn([], Newline) == [[]];
    }
  }

  /** A configuration with no placeholder and no `external-ip=` line comes
      out unchanged, whatever the environment. */
  lemma PlainConfigUnchanged(config: Text, password: Option<Text>, externalIp: Option<Text>)
    requires !Contains(config, PasswordPlaceholder) && !Contains(config, ExternalIpPlaceholder)
    requires forall line | line in SplitOn(config, Newline) :: !StartsWith(line, ExternalIpKey)
    ensures UpdateConfig(config, password, externalIp) == config
  {
    ReplaceAbsent(config, PasswordPlaceholder, password.GetOr(DefaultPassword));
    if UsesExternalIp(externalIp) {
      ReplaceAbsent(config, ExternalIpPlaceholder, externalIp.value);
    } else {
      KeepLinesIdentity(SplitOn(config, Newline));
      SplitJoinRoundTrip(config, Newline);
    }
  }
}
