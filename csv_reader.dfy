/**
 * Python's `csv.reader` with its default ("excel") dialect, reading a file that
 * was opened in text mode: the file object turns "\r\n" and a lone "\r" into
 * "\n" and hands the reader one line at a time; the reader runs a character
 * state machine over each line and then over an end-of-line mark, and yields a
 * record whenever that mark leaves it at the start of a record.
 *
 * Delimiter ',', quote character '"', doubled quotes inside quoted fields,
 * no escape character, no initial-space skipping, non-strict mode, and the
 * default field size limit.
 */
module CsvReader {
  import opened Wrappers

  /** Default of `csv.field_size_limit()`. */
  const FieldSizeLimit: nat := 131072

  datatype CsvError =
    | FieldTooLarge            // a field grew beyond FieldSizeLimit characters
    | NewlineInUnquotedField   // a character followed a line break inside one line

  /** Universal newlines: "\r\n" and a lone "\r" both read as "\n". */
  function TranslateNewlines(s: string): (r: string)
    ensures forall i :: 0 <= i < |r| ==> r[i] != '\r'
  {
    if s == [] then []
    else if s[0] == '\r' then "\n" + TranslateNewlines(if |s| > 1 && s[1] == '\n' then s[2..] else s[1..])
    else [s[0]] + TranslateNewlines(s[1..])
  }

  lemma {:induction false} TranslateWithoutCarriageReturn(s: string)
    requires forall i :: 0 <= i < |s| ==> s[i] != '\r'
    ensures TranslateNewlines(s) == s
  {
    if s != [] {
      TranslateWithoutCarriageReturn(s[1..]);
    }
  }

  /** Text without "\r" before `t` passes translation unchanged. */
  lemma {:induction false} TranslateAfterPlain(a: string, t: string)
    requires forall i :: 0 <= i < |a| ==> a[i] != '\r'
    ensures TranslateNewlines(a + t) == a + TranslateNewlines(t)
  {
    if a != [] {
      assert (a + t)[0] == a[0] && (a + t)[1..] == a[1..] + t;
      TranslateAfterPlain(a[1..], t);
      assert TranslateNewlines(a + t) == [a[0]] + TranslateNewlines(a[1..] + t);
      assert [a[0]] + (a[1..] + TranslateNewlines(t)) == a + TranslateNewlines(t);
    } else {
      assert a + t == t;
    }
  }

  /** "\r\n" reads as one "\n". */
  lemma TranslateCrLf(a: string, b: string)
    requires forall i :: 0 <= i < |a| ==> a[i] != '\r'
    ensures TranslateNewlines(a + "\r\n" + b) == a + "\n" + TranslateNewlines(b)
  {
    assert a + "\r\n" + b == a + ("\r\n" + b);
    TranslateAfterPlain(a, "\r\n" + b);
    assert ("\r\n" + b)[2..] == b;
  }

  /** A "\r" not followed by "\n" reads as "\n". */
  lemma TranslateLoneCr(a: string, b: string)
    requires forall i :: 0 <= i < |a| ==> a[i] != '\r'
    requires b == [] || b[0] != '\n'
    ensures TranslateNewlines(a + "\r" + b) == a + "\n" + TranslateNewlines(b)
  {
    assert a + "\r" + b == a + ("\r" + b);
    TranslateAfterPlain(a, "\r" + b);
    assert ("\r" + b)[1..] == b;
  }

  /** What the state machine is fed: each character, and a mark at the end of each line. */
  datatype Token = Char(c: char) | EndOfLine

  /** A line ends after each "\n" and at the end of non-empty text. */
  function Tokens(s: string): seq<Token> {
    if s == [] then []
    else if s[0] == '\n' || |s| == 1 then [Char(s[0]), EndOfLine] + Tokens(s[1..])
    else [Char(s[0])] + Tokens(s[1..])
  }

  function Chars(w: string): (ts: seq<Token>)
    ensures |ts| == |w|
  {
    if w == [] then [] else [Char(w[0])] + Chars(w[1..])
  }

  datatype State = StartRecord | StartField | InField | InQuotedField | QuoteInQuotedField | EatNewline

  /** The reader's state, the field and record being built, the records yielded so far, and a raised error. */
  datatype Reader = Reader(state: State, field: string, fields: seq<string>, rows: seq<seq<string>>, error: Option<CsvError>)

  const Start := Reader(StartRecord, "", [], [], None)

  predicate IsNewline(c: char) {
    c == '\n' || c == '\r'
  }

  function AddChar(r: Reader, c: char, next: State): Reader {
    if |r.field| >= FieldSizeLimit then r.(error := Some(FieldTooLarge))
    else r.(field := r.field + [c], state := next)
  }

  function SaveField(r: Reader, next: State): Reader {
    r.(fields := r.fields + [r.field], field := "", state := next)
  }

  function StartFieldChar(r: Reader, c: char): Reader {
    if IsNewline(c) then SaveField(r, EatNewline)
    else if c == '"' then r.(state := InQuotedField)
    else if c == ',' then SaveField(r, StartField)
    else AddChar(r, c, InField)
  }

  function StepChar(r: Reader, c: char): Reader {
    match r.state
    case StartRecord => if IsNewline(c) then r.(state := EatNewline) else StartFieldChar(r, c)
    case StartField => StartFieldChar(r, c)
    case InField =>
      if IsNewline(c) then SaveField(r, EatNewline)
      else if c == ',' then SaveField(r, StartField)
      else AddChar(r, c, InField)
    case InQuotedField =>
      if c == '"' then r.(state := QuoteInQuotedField) else AddChar(r, c, InQuotedField)
    case QuoteInQuotedField =>
      if c == '"' then AddChar(r, c, InQuotedField)
      else if c == ',' then SaveField(r, StartField)
      else if IsNewline(c) then SaveField(r, EatNewline)
      else AddChar(r, c, InField)
    case EatNewline =>
      if IsNewline(c) then r else r.(error := Some(NewlineInUnquotedField))
  }

  /** The end-of-line mark: ends the record unless a quoted field is open; a blank line yields []. */
  function StepEndOfLine(r: Reader): Reader {
    var s := match r.state
      case StartRecord => r
      case StartField => SaveField(r, StartRecord)
      case InField => SaveField(r, StartRecord)
      case InQuotedField => r
      case QuoteInQuotedField => SaveField(r, StartRecord)
      case EatNewline => r.(state := StartRecord);
    if s.state == StartRecord then s.(rows := s.rows + [s.fields], fields := []) else s
  }

  function Step(r: Reader, t: Token): Reader {
    if r.error.Some? then r
    else match t
      case Char(c) => StepChar(r, c)
      case EndOfLine => StepEndOfLine(r)
  }

  function Feed(r: Reader, ts: seq<Token>): Reader
    decreases |ts|
  {
    if ts == [] then r else Feed(Step(r, ts[0]), ts[1..])
  }

  /** The records the reader yields, in order, then the error it raises, if any. */
  datatype Outcome = Outcome(rows: seq<seq<string>>, error: Option<CsvError>)

  /**
   * End of input: a record cut short is yielded only when its last field has
   * characters or a quoted field is still open.
   */
  function Finish(r: Reader): Outcome {
    if r.error.Some? then Outcome(r.rows, r.error)
    else if |r.field| != 0 || r.state == InQuotedField then Outcome(r.rows + [r.fields + [r.field]], None)
    else Outcome(r.rows, None)
  }

  /** Every record `csv.reader(open(path, 'r'))` yields for a file holding `text`. */
  function Read(text: string): (o: Outcome)
    ensures RowsFit(o.rows)
  {
    var ts := Tokens(TranslateNewlines(text));
    FeedFits(Start, ts);
    Finish(Feed(Start, ts))
  }

  /** No field holds more than `FieldSizeLimit` characters. */
  predicate FieldsFit(fields: seq<string>) {
    forall j :: 0 <= j < |fields| ==> |fields[j]| <= FieldSizeLimit
  }

  predicate RowsFit(rows: seq<seq<string>>) {
    forall i :: 0 <= i < |rows| ==> FieldsFit(rows[i])
  }

  predicate Fits(r: Reader) {
    |r.field| <= FieldSizeLimit && FieldsFit(r.fields) && RowsFit(r.rows)
  }

  lemma StepFits(r: Reader, t: Token)
    requires Fits(r)
    ensures Fits(Step(r, t))
  {
  }

  /** The field size limit holds of every field the reader has built, whatever it is fed. */
  lemma {:induction false} FeedFits(r: Reader, ts: seq<Token>)
    requires Fits(r)
    ensures Fits(Feed(r, ts))
    decreases |ts|
  {
    if ts != [] {
      StepFits(r, ts[0]);
      FeedFits(Step(r, ts[0]), ts[1..]);
    }
  }

  lemma {:induction false} FeedAppend(r: Reader, a: seq<Token>, b: seq<Token>)
    ensures Feed(r, a + b) == Feed(Feed(r, a), b)
    decreases |a|
  {
    if a == [] {
      assert a + b == b;
    } else {
      assert (a + b)[0] == a[0] && (a + b)[1..] == a[1..] + b;
      FeedAppend(Step(r, a[0]), a[1..], b);
    }
  }

  lemma {:induction false} TokensAppend(a: string, b: string)
    requires a == [] || a[|a| - 1] == '\n'
    ensures Tokens(a + b) == Tokens(a) + Tokens(b)
    decreases |a|
  {
    if a == [] {
      assert a + b == b;
    } else {
      assert (a + b)[0] == a[0] && (a + b)[1..] == a[1..] + b;
      TokensAppend(a[1..], b);
      if a[0] != '\n' {
        assert |a| > 1;
      }
    }
  }

  lemma {:induction false} TokensOfLine(w: string, s: string)
    requires forall i :: 0 <= i < |w| ==> w[i] != '\n'
    requires s != []
    ensures Tokens(w + s) == Chars(w) + Tokens(s)
    decreases |w|
  {
    if w == [] {
      assert w + s == s;
    } else {
      assert (w + s)[0] == w[0] && (w + s)[1..] == w[1..] + s;
      TokensOfLine(w[1..], s);
    }
  }

  lemma {:induction false} CharsAppend(a: string, b: string)
    ensures Chars(a + b) == Chars(a) + Chars(b)
  {
    if a == [] {
      assert a + b == b;
    } else {
      assert (a + b)[0] == a[0] && (a + b)[1..] == a[1..] + b;
      CharsAppend(a[1..], b);
    }
  }

  /** A field that the excel dialect reads back verbatim without quoting. */
  predicate PlainField(w: string) {
    && |w| <= FieldSizeLimit
    && (forall i :: 0 <= i < |w| ==> w[i] != ',' && !IsNewline(w[i]))
    && (|w| == 0 || w[0] != '"')
  }

  /** Reading the characters of a plain field at the start of a field collects exactly them. */
  lemma {:induction false} PlainFieldRun(r: Reader, w: string)
    requires r.error.None? && r.field == "" && (r.state == StartRecord || r.state == StartField)
    requires PlainField(w)
    ensures Feed(r, Chars(w)) == if w == [] then r else r.(state := InField, field := w)
  {
    if w != [] {
      var r1 := Step(r, Char(w[0]));
      assert r1 == r.(state := InField, field := [w[0]]);
      InFieldRun(r1, w[1..]);
      assert [w[0]] + w[1..] == w;
    }
  }

  lemma {:induction false} InFieldRun(r: Reader, w: string)
    requires r.error.None? && r.state == InField
    requires |r.field| + |w| <= FieldSizeLimit
    requires forall i :: 0 <= i < |w| ==> w[i] != ',' && !IsNewline(w[i])
    ensures Feed(r, Chars(w)) == r.(field := r.field + w)
    decreases |w|
  {
    if w != [] {
      var r1 := Step(r, Char(w[0]));
      assert r1 == r.(field := r.field + [w[0]]);
      InFieldRun(r1, w[1..]);
      assert r.field + [w[0]] + w[1..] == r.field + w;
    }
  }

  /** A plain field followed by a delimiter or a line break is saved as one field. */
  lemma PlainFieldEnd(r: Reader, w: string, c: char)
    requires r.error.None? && r.field == "" && (r.state == StartRecord || r.state == StartField)
    requires PlainField(w)
    requires c == ',' || (c == '\n' && r.state == StartField)
    ensures Feed(r, Chars(w) + [Char(c)])
         == r.(state := if c == ',' then StartField else EatNewline, fields := r.fields + [w])
  {
    PlainFieldRun(r, w);
    FeedAppend(r, Chars(w), [Char(c)]);
  }

  lemma LineHasNoNewline(a: string, b: string)
    requires PlainField(a) && PlainField(b)
    ensures forall i :: 0 <= i < |a + "," + b| ==> (a + "," + b)[i] != '\n'
  {
    var line := a + "," + b;
    forall i | 0 <= i < |line| ensures line[i] != '\n' {
      if i < |a| { assert line[i] == a[i]; }
      else if i > |a| { assert line[i] == b[i - |a| - 1]; }
    }
  }

  lemma NewlineTokens()
    ensures Tokens("\n") == [Char('\n'), EndOfLine]
  {
    assert "\n"[1..] == [];
  }

  lemma Regroup<T>(xs: seq<T>, c: T, ys: seq<T>, n: T, e: T)
    ensures ((xs + [c]) + ys) + [n, e] == (xs + [c]) + ((ys + [n]) + [e])
  {
  }

  lemma LineTokens(a: string, b: string)
    requires PlainField(a) && PlainField(b)
    ensures Tokens(a + "," + b + "\n") == (Chars(a) + [Char(',')]) + ((Chars(b) + [Char('\n')]) + [EndOfLine])
  {
    LineHasNoNewline(a, b);
    TokensOfLine(a + "," + b, "\n");
    NewlineTokens();
    CharsAppend(a, ",");
    CharsAppend(a + ",", b);
    assert Chars(",") == [Char(',')];
    Regroup(Chars(a), Char(','), Chars(b), Char('\n'), EndOfLine);
  }

  /** A line of two plain fields reads back as one record of exactly those two fields. */
  lemma TwoFieldLine(rows: seq<seq<string>>, a: string, b: string)
    requires PlainField(a) && PlainField(b)
    ensures Feed(Reader(StartRecord, "", [], rows, None), Tokens(a + "," + b + "\n"))
         == Reader(StartRecord, "", [], rows + [[a, b]], None)
  {
    var r0 := Reader(StartRecord, "", [], rows, None);
    var r2 := Reader(StartField, "", [a], rows, None);
    var r4 := Reader(EatNewline, "", [a, b], rows, None);
    LineTokens(a, b);
    PlainFieldEnd(r0, a, ',');
    assert Feed(r0, Chars(a) + [Char(',')]) == r2;
    PlainFieldEnd(r2, b, '\n');
    assert Feed(r2, Chars(b) + [Char('\n')]) == r4;
    FeedAppend(r0, Chars(a) + [Char(',')], (Chars(b) + [Char('\n')]) + [EndOfLine]);
    FeedAppend(r2, Chars(b) + [Char('\n')], [EndOfLine]);
    assert Step(r4, EndOfLine) == Reader(StartRecord, "", [], rows + [[a, b]], None);
    assert Feed(r4, [EndOfLine]) == Step(r4, EndOfLine);
  }

  /** A blank line is yielded as an empty record. */
  lemma BlankLine(rows: seq<seq<string>>)
    ensures Feed(Reader(StartRecord, "", [], rows, None), Tokens("\n"))
         == Reader(StartRecord, "", [], rows + [[]], None)
  {
  }
}
