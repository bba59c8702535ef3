/** The logic of the chat panel (frontend/src/components/Chat.js): grouping
    the message history by calendar day, the day label shown above each group,
    and the guards on sending text and uploading a file. Rendering is not
    modelled. The calendar day of a timestamp (`new Date(t).toDateString()`)
    is an abstract key function supplied by the caller. */
module Chat {
  import opened Common

  // ---------------------------------------------------------------------------
  // String.prototype.trim
  // ---------------------------------------------------------------------------

  /** The characters JavaScript's `trim` strips: WhiteSpace and LineTerminator. */
  predicate IsJsWhitespace(c: char) {
    c == '\t' || c == '\n' || c == '\U{B}' || c == '\U{C}' || c == '\r' || c == ' '
    || c == '\U{A0}' || c == '\U{1680}' || ('\U{2000}' <= c <= '\U{200A}')
    || c == '\U{2028}' || c == '\U{2029}' || c == '\U{202F}' || c == '\U{205F}'
    || c == '\U{3000}' || c == '\U{FEFF}'
  }

  predicate AllWhitespace(s: Text) {
    forall i | 0 <= i < |s| :: IsJsWhitespace(s[i])
  }

  /** Drops leading whitespace: the result is the suffix of `s` that starts at
      its first non-whitespace character. */
  function TrimStart(s: Text): (r: Text)
    ensures |r| <= |s| && r == s[|s| - |r|..]
    ensures AllWhitespace(s[..|s| - |r|])
    ensures r != [] ==> !IsJsWhitespace(r[0])
    decreases |s|
  {
    if |s| > 0 && IsJsWhitespace(s[0]) then TrimStart(s[1..]) else s
  }

  /** Drops trailing whitespace: the result is the prefix of `s` that ends at
      its last non-whitespace character. */
  function TrimEnd(s: Text): (r: Text)
    ensures |r| <= |s| && r == s[..|r|]
    ensures AllWhitespace(s[|r|..])
    ensures r != [] ==> !IsJsWhitespace(r[|r| - 1])
    decreases |s|
  {
    if |s| > 0 && IsJsWhitespace(s[|s| - 1]) then TrimEnd(s[..|s| - 1]) else s
  }

  /** `s.trim()`: never longer than `s`, and a non-empty result neither
      starts nor ends with whitespace. */
  function Trim(s: Text): (r: Text)
    ensures |r| <= |s|
    ensures r != [] ==> !IsJsWhitespace(r[0]) && !IsJsWhitespace(r[|r| - 1])
  {
    var t := TrimStart(s);
    var r := TrimEnd(t);
    assert r != [] ==> r[0] == t[0];
    r
  }

  /** `trim` returns the slice of `s` between its whitespace margins: the
      characters cut on either side are all whitespace. */
  lemma TrimIsSlice(s: Text)
    ensures exists i, j | 0 <= i <= j <= |s| ::
              Trim(s) == s[i..j] && AllWhitespace(s[..i]) && AllWhitespace(s[j..])
  {
    var t := TrimStart(s);
    var r := TrimEnd(t);
    var i := |s| - |t|;
    var j := i + |r|;
    assert r == t[..|r|] && t == s[i..];
    assert Trim(s) == s[i..j];
    assert AllWhitespace(s[..i]);
    assert s[j..] == t[|r|..];
    assert AllWhitespace(s[j..]);
  }

  /** The trimmed text is empty exactly when every character is whitespace. */
  lemma TrimEmptyIffBlank(s: Text)
    ensures Trim(s) == [] <==> AllWhitespace(s)
  {
    var t := TrimStart(s);
    if Trim(s) == [] {
      assert s == s[..|s| - |t|] + t;
      assert AllWhitespace(t) by { assert t[|TrimEnd(t)|..] == t; }
    } else {
      var k := |s| - |t|;
      assert t != [] && !IsJsWhitespace(s[k]);
    }
  }

  /** Trimming twice is trimming once. */
  lemma TrimIdempotent(s: Text)
    ensures Trim(Trim(s)) == Trim(s)
  {
    var r := Trim(s);
    TrimIsSlice(s);
    if r != [] {
      assert TrimStart(r) == r;
      assert TrimEnd(r) == r;
    }
  }

  // ---------------------------------------------------------------------------
  // groupMessagesByDate (frontend/src/components/Chat.js:65-75)
  // ---------------------------------------------------------------------------

  /** The messages of `ms` whose day is `day`, in input order. */
  function Select<M, K(==)>(ms: seq<M>, dayKey: M -> K, day: K): seq<M>
    decreases |ms|
  {
    if |ms| == 0 then []
    else Select(ms[..|ms| - 1], dayKey, day)
         + (if dayKey(ms[|ms| - 1]) == day then [ms[|ms| - 1]] else [])
  }

  /** The days that occur in `ms`, each once, in order of first appearance. */
  function FirstDays<M, K(==)>(ms: seq<M>, dayKey: M -> K): seq<K>
    decreases |ms|
  {
    if |ms| == 0 then []
    else
      var earlier := FirstDays(ms[..|ms| - 1], dayKey);
      var day := dayKey(ms[|ms| - 1]);
      if day in earlier then earlier else earlier + [day]
  }

  /** The reference grouping: one entry per day occurring in `ms`, holding
      that day's messages in input order. */
  function Grouped<M, K(==)>(ms: seq<M>, dayKey: M -> K): map<K, seq<M>> {
    map day | day in FirstDays(ms, dayKey) :: Select(ms, dayKey, day)
  }

  /** The days listed are exactly the days that occur, without repetition. */
  lemma {:induction false} FirstDaysSpec<M, K>(ms: seq<M>, dayKey: M -> K)
    ensures Distinct(FirstDays(ms, dayKey))
    ensures forall i | 0 <= i < |ms| :: dayKey(ms[i]) in FirstDays(ms, dayKey)
    ensures forall day | day in FirstDays(ms, dayKey) :: exists i | 0 <= i < |ms| :: dayKey(ms[i]) == day
    decreases |ms|
  {
    if |ms| > 0 {
      var init := ms[..|ms| - 1];
      FirstDaysSpec(init, dayKey);
      var earlier := FirstDays(init, dayKey);
      forall i | 0 <= i < |ms| ensures dayKey(ms[i]) in FirstDays(ms, dayKey) {
        if i < |init| {
          assert ms[i] == init[i];
          assert dayKey(init[i]) in earlier;
        }
      }
      forall day | day in FirstDays(ms, dayKey) ensures exists i | 0 <= i < |ms| :: dayKey(ms[i]) == day {
        if day in earlier {
          var i :| 0 <= i < |init| && dayKey(init[i]) == day;
          assert ms[i] == init[i];
        } else {
          assert dayKey(ms[|ms| - 1]) == day;
        }
      }
    }
  }

  /** The days are listed in order of first appearance: the days met in the
      first `n` messages are listed first, ahead of every day met later. */
  lemma {:induction false} FirstDaysOrder<M, K>(ms: seq<M>, dayKey: M -> K, n: nat)
    requires n <= |ms|
    ensures FirstDays(ms[..n], dayKey) <= FirstDays(ms, dayKey)
    decreases |ms|
  {
    if n < |ms| {
      var init := ms[..|ms| - 1];
      assert init[..n] == ms[..n];
      FirstDaysOrder(init, dayKey, n);
    } else {
      assert ms[..n] == ms;
    }
  }

  /** A message with day `day` lies in `Select(ms, dayKey, day)` and nowhere
      else: every selected message has that day, every message of that day is
      selected, and a day that occurs has a non-empty selection. */
  lemma {:induction false} SelectSpec<M, K>(ms: seq<M>, dayKey: M -> K, day: K)
    ensures forall m | m in Select(ms, dayKey, day) :: dayKey(m) == day
    ensures forall i | 0 <= i < |ms| && dayKey(ms[i]) == day :: ms[i] in Select(ms, dayKey, day)
    ensures (exists i | 0 <= i < |ms| :: dayKey(ms[i]) == day) ==> |Select(ms, dayKey, day)| > 0
    decreases |ms|
  {
    if |ms| > 0 {
      var init := ms[..|ms| - 1];
      SelectSpec(init, dayKey, day);
      forall i | 0 <= i < |ms| - 1 ensures ms[i] == init[i] { }
    }
  }

  /** Order within a group is input order: selecting from a concatenation is
      the concatenation of the selections. */
  lemma {:induction false} SelectAppend<M, K>(a: seq<M>, b: seq<M>, dayKey: M -> K, day: K)
    ensures Select(a + b, dayKey, day) == Select(a, dayKey, day) + Select(b, dayKey, day)
    decreases |b|
  {
    if |b| == 0 {
      assert a + b == a;
    } else {
      var binit := b[..|b| - 1];
      assert (a + b)[..|a + b| - 1] == a + binit;
      SelectAppend(a, binit, dayKey, day);
    }
  }

  /** Sum of the sizes of the groups of the days in `days`. */
  function GroupSizes<M, K(==)>(days: seq<K>, groups: map<K, seq<M>>): nat
    requires forall day | day in days :: day in groups
    decreases |days|
  {
    if |days| == 0 then 0 else |groups[days[0]]| + GroupSizes(days[1..], groups)
  }

  /** How often `day` occurs in `days`. */
  function Occurrences<K(==)>(days: seq<K>, day: K): nat
    decreases |days|
  {
    if |days| == 0 then 0 else (if days[0] == day then 1 else 0) + Occurrences(days[1..], day)
  }

  lemma {:induction false} OccursOnce<K>(days: seq<K>, day: K)
    requires Distinct(days) && day in days
    ensures Occurrences(days, day) == 1
    decreases |days|
  {
    if days[0] != day {
      assert day in days[1..];
      OccursOnce(days[1..], day);
    } else {
      forall j | 0 <= j < |days| - 1 ensures days[1..][j] != day {
        assert days[1..][j] == days[j + 1];
      }
      NotOccurring(days[1..], day);
    }
  }

  lemma {:induction false} NotOccurring<K>(days: seq<K>, day: K)
    requires day !in days
    ensures Occurrences(days, day) == 0
    decreases |days|
  {
    if |days| > 0 {
      assert days[0] != day;
      NotOccurring(days[1..], day);
    }
  }

  /** Sum over `days` of the selection sizes for `ms`. */
  function SelectionSizes<M, K(==)>(ms: seq<M>, dayKey: M -> K, days: seq<K>): nat
    decreases |days|
  {
    if |days| == 0 then 0
    else |Select(ms, dayKey, days[0])| + SelectionSizes(ms, dayKey, days[1..])
  }

  lemma {:induction false} SelectionSizesSnoc<M, K>(ms: seq<M>, m: M, dayKey: M -> K, days: seq<K>)
    ensures SelectionSizes(ms + [m], dayKey, days)
         == SelectionSizes(ms, dayKey, days) + Occurrences(days, dayKey(m))
    decreases |days|
  {
    if |days| > 0 {
      assert (ms + [m])[..|ms + [m]| - 1] == ms;
      SelectionSizesSnoc(ms, m, dayKey, days[1..]);
    }
  }

  /** No message is lost or duplicated: over any list of distinct days that
      covers every day occurring, the selections add up to the input. */
  lemma {:induction false} SelectionsPartition<M, K>(ms: seq<M>, dayKey: M -> K, days: seq<K>)
    requires Distinct(days)
    requires forall i | 0 <= i < |ms| :: dayKey(ms[i]) in days
    ensures SelectionSizes(ms, dayKey, days) == |ms|
    decreases |ms|
  {
    if |ms| == 0 {
      EmptySelections(dayKey, days);
    } else {
      var init, m := ms[..|ms| - 1], ms[|ms| - 1];
      assert ms == init + [m];
      forall i | 0 <= i < |init| ensures dayKey(init[i]) in days { assert init[i] == ms[i]; }
      SelectionsPartition(init, dayKey, days);
      SelectionSizesSnoc(init, m, dayKey, days);
      OccursOnce(days, dayKey(m));
    }
  }

  lemma {:induction false} EmptySelections<M, K>(dayKey: M -> K, days: seq<K>)
    ensures SelectionSizes([], dayKey, days) == 0
    decreases |days|
  {
    if |days| > 0 {
      EmptySelections(dayKey, days[1..]);
    }
  }

  lemma {:induction false} GroupSizesAreSelections<M, K>(ms: seq<M>, dayKey: M -> K, days: seq<K>)
    requires forall day | day in days :: day in Grouped(ms, dayKey)
    ensures GroupSizes(days, Grouped(ms, dayKey)) == SelectionSizes(ms, dayKey, days)
    decreases |days|
  {
    if |days| > 0 {
      assert forall day | day in days[1..] :: day in days;
      GroupSizesAreSelections(ms, dayKey, days[1..]);
    }
  }

  /** What the grouping promises the panel: every group is non-empty (so
      `msgs[0]` exists) and holds only messages of its day, every message sits
      in the group of its day, and the group sizes, taken in the order the
      groups are listed, add up to the number of messages. */
  lemma GroupingPartitions<M, K>(ms: seq<M>, dayKey: M -> K)
    ensures var groups, days := Grouped(ms, dayKey), FirstDays(ms, dayKey);
            && (forall day | day in groups :: |groups[day]| > 0 && groups[day][0] in ms)
            && (forall day, m | day in groups && m in groups[day] :: dayKey(m) == day)
            && (forall i | 0 <= i < |ms| :: dayKey(ms[i]) in groups && ms[i] in groups[dayKey(ms[i])])
            && GroupSizes(days, groups) == |ms|
  {
    GroupsHoldTheirDay(ms, dayKey);
    GroupsCoverInput(ms, dayKey);
    var days := FirstDays(ms, dayKey);
    FirstDaysSpec(ms, dayKey);
    SelectionsPartition(ms, dayKey, days);
    GroupSizesAreSelections(ms, dayKey, days);
  }

  lemma GroupsHoldTheirDay<M, K>(ms: seq<M>, dayKey: M -> K)
    ensures var groups := Grouped(ms, dayKey);
            && (forall day | day in groups :: |groups[day]| > 0 && groups[day][0] in ms)
            && (forall day, m | day in groups && m in groups[day] :: dayKey(m) == day)
  {
    var groups, days := Grouped(ms, dayKey), FirstDays(ms, dayKey);
    FirstDaysSpec(ms, dayKey);
    forall day | day in groups ensures |groups[day]| > 0 && groups[day][0] in ms {
      assert day in days;
      var i :| 0 <= i < |ms| && dayKey(ms[i]) == day;
      SelectSpec(ms, dayKey, day);
      SelectedFromInput(ms, dayKey, day);
    }
    forall day, m | day in groups && m in groups[day] ensures dayKey(m) == day {
      SelectSpec(ms, dayKey, day);
    }
  }

  lemma GroupsCoverInput<M, K>(ms: seq<M>, dayKey: M -> K)
    ensures var groups := Grouped(ms, dayKey);
            forall i | 0 <= i < |ms| :: dayKey(ms[i]) in groups && ms[i] in groups[dayKey(ms[i])]
  {
    var groups, days := Grouped(ms, dayKey), FirstDays(ms, dayKey);
    FirstDaysSpec(ms, dayKey);
    forall i | 0 <= i < |ms| ensures dayKey(ms[i]) in groups && ms[i] in groups[dayKey(ms[i])] {
      assert dayKey(ms[i]) in days;
      SelectSpec(ms, dayKey, dayKey(ms[i]));
    }
  }

  lemma {:induction false} SelectedFromInput<M, K>(ms: seq<M>, dayKey: M -> K, day: K)
    ensures forall m | m in Select(ms, dayKey, day) :: m in ms
    decreases |ms|
  {
    if |ms| > 0 {
      var init := ms[..|ms| - 1];
      SelectedFromInput(init, dayKey, day);
      assert forall m | m in init :: m in ms;
    }
  }

  /** Adding one message to the reference grouping: the grouping of the
      longer list is the old grouping with the message pushed onto its day's
      group (a new group at the end of the listing if the day is new). */
  lemma GroupedSnoc<M, K>(ms: seq<M>, m: M, dayKey: M -> K)
    ensures var day, g := dayKey(m), Grouped(ms, dayKey);
            && Grouped(ms + [m], dayKey) == g[day := (if day in g then g[day] else []) + [m]]
            && FirstDays(ms + [m], dayKey)
               == if day in g then FirstDays(ms, dayKey) else FirstDays(ms, dayKey) + [day]
  {
    var day, g := dayKey(m), Grouped(ms, dayKey);
    var ms' := ms + [m];
    assert ms'[..|ms'| - 1] == ms;
    var g' := Grouped(ms', dayKey);
    var h := g[day := (if day in g then g[day] else []) + [m]];
    assert g'.Keys == h.Keys;
    forall k | k in h ensures g'[k] == h[k] {
      if k != day {
        FirstDaysSpec(ms, dayKey);
        SelectSpec(ms, dayKey, k);
      } else if day !in g {
        FirstDaysSpec(ms, dayKey);
        forall i | 0 <= i < |ms| ensures dayKey(ms[i]) != day {
          assert dayKey(ms[i]) in FirstDays(ms, dayKey);
        }
        NothingSelected(ms, dayKey, day);
      }
    }
  }

  lemma {:induction false} NothingSelected<M, K>(ms: seq<M>, dayKey: M -> K, day: K)
    requires forall i | 0 <= i < |ms| :: dayKey(ms[i]) != day
    ensures Select(ms, dayKey, day) == []
    decreases |ms|
  {
    if |ms| > 0 {
      var init := ms[..|ms| - 1];
      forall i | 0 <= i < |init| ensures dayKey(init[i]) != day { assert init[i] == ms[i]; }
      NothingSelected(init, dayKey, day);
    }
  }

  /** `groupMessagesByDate`: walks the messages once, creating a group the
      first time a day is seen and pushing each message onto its day's group.
      `days` is the key order `Object.entries` reports (insertion order). */
  method GroupMessagesByDate<M, K(==)>(messages: seq<M>, dayKey: M -> K)
    returns (days: seq<K>, groups: map<K, seq<M>>)
    ensures groups == Grouped(messages, dayKey)
    ensures days == FirstDays(messages, dayKey)
  {
    days, groups := [], map[];
    var i := 0;
    while i < |messages|
      invariant 0 <= i <= |messages|
      invariant groups == Grouped(messages[..i], dayKey)
      invariant days == FirstDays(messages[..i], dayKey)
    {
      var msg := messages[i];
      var day := dayKey(msg);
      GroupedSnoc(messages[..i], msg, dayKey);
      assert messages[..i + 1] == messages[..i] + [msg];
      var group := if day in groups then groups[day] else [];
      if day !in groups {
        days := days + [day];
      }
      groups := groups[day := group + [msg]];
      i := i + 1;
    }
    assert messages[..i] == messages;
  }

  // ---------------------------------------------------------------------------
  // formatDate (frontend/src/components/Chat.js:47-62), over day numbers
  // ---------------------------------------------------------------------------

  datatype DayLabel = Today | Yesterday | CalendarDate(day: int)

  /** The label over a day group, given the day number of the message and of
      the current date. */
  function FormatDate(day: int, today: int): (caption: DayLabel)
    ensures caption == Today <==> day == today
    ensures caption == Yesterday <==> day == today - 1
    ensures caption.CalendarDate? ==> caption.day == day
  {
    if day == today then Today
    else if day == today - 1 then Yesterday
    else CalendarDate(day)
  }

  /** Every group gets one label: all of its messages share the day it was
      formed for, so labelling by its first message labels them all. */
  lemma GroupLabel<M>(ms: seq<M>, dayOf: M -> int, today: int, day: int)
    requires day in Grouped(ms, dayOf)
    ensures var group := Grouped(ms, dayOf)[day];
            forall m | m in group :: FormatDate(dayOf(m), today) == FormatDate(dayOf(group[0]), today)
  {
    GroupingPartitions(ms, dayOf);
  }

  // ---------------------------------------------------------------------------
  // The composer: handleSendMessage and handleFileUpload
  // ---------------------------------------------------------------------------

  /** The message input and the file input of the panel, with the calls made
      to the parent's `onSendMessage` and `onUploadFile` recorded in order.
      `F` is the browser's file object. */
  class Composer<F> {
    var message: Text
    var isTyping: bool
    /** Present when `fileInputRef.current` is attached; holds its `value`. */
    var fileInput: Option<Text>
    var sentTexts: seq<Text>
    var uploadedFiles: seq<F>
    const hasSendHandler: bool
    const hasUploadHandler: bool

    constructor (hasSendHandler: bool, hasUploadHandler: bool, fileInput: Option<Text>)
      ensures message == [] && !isTyping && this.fileInput == fileInput
      ensures sentTexts == [] && uploadedFiles == []
      ensures this.hasSendHandler == hasSendHandler && this.hasUploadHandler == hasUploadHandler
    {
      message, isTyping := [], false;
      this.fileInput := fileInput;
      sentTexts, uploadedFiles := [], [];
      this.hasSendHandler, this.hasUploadHandler := hasSendHandler, hasUploadHandler;
    }

    /** Sends the trimmed text when it is not blank and a handler exists, then
      clears the input and the typing flag; otherwise changes nothing. */
    method HandleSendMessage()
      modifies this
      ensures var text := Trim(old(message));
              if text != [] && hasSendHandler then
                && sentTexts == old(sentTexts) + [text]
                && message == [] && !isTyping
                && fileInput == old(fileInput) && uploadedFiles == old(uploadedFiles)
              else unchanged(this)
    {
      var text := Trim(message);
      if text != [] && hasSendHandler {
        sentTexts := sentTexts + [text];
        message := [];
        isTyping := false;
      }
    }

    /** Passes the first selected file to the handler when both exist, then
      always clears the file input if it is attached. */
    method HandleFileUpload(files: seq<F>)
      modifies this
      ensures uploadedFiles == if |files| > 0 && hasUploadHandler then old(uploadedFiles) + [files[0]]
                               else old(uploadedFiles)
      ensures fileInput == if old(fileInput).Some? then Some([]) else None
      ensures message == old(message) && isTyping == old(isTyping) && sentTexts == old(sentTexts)
    {
      if |files| > 0 && hasUploadHandler {
        uploadedFiles := uploadedFiles + [files[0]];
      }
      if fileInput.Some? {
        fileInput := Some([]);
      }
    }
  }

  /** What reaches `onSendMessage` is never blank and carries no surrounding
      whitespace, and it is sent exactly when the typed text is not blank. */
  lemma SentTextIsClean(typed: Text)
    ensures Trim(typed) != [] <==> !AllWhitespace(typed)
    ensures Trim(typed) != [] ==>
              !IsJsWhitespace(Trim(typed)[0]) && !IsJsWhitespace(Trim(typed)[|Trim(typed)| - 1])
    ensures Trim(Trim(typed)) == Trim(typed)
  {
    TrimEmptyIffBlank(typed);
    TrimIsSlice(typed);
    TrimIdempotent(typed);
  }
}
