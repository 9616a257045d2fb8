/** The listing of library functions: printed by LibcFuncDump.cpp as `index:name`
    lines, read back by LibcCallGraphUtils.h. */
module Listing {
  import opened Options
  import opened Decimals

  /** Entries of a symbol table fit an int. */
  const INT_LIMIT: nat := 0x8000_0000

  /** A symbol table entry; a null name is None. */
  datatype Symbol = Symbol(isFunction: bool, name: Option<string>)

  /** Entry `i` is printed, under `name`. */
  predicate Listed(symbols: seq<Symbol>, i: nat, name: string)
    requires i < |symbols|
  {
    symbols[i].isFunction && symbols[i].name == Some(name)
  }

  ghost predicate ListedFrom(symbols: seq<Symbol>, i: nat, name: string) {
    exists k :: i <= k < |symbols| && Listed(symbols, k, name)
  }

  // ----- printing -----

  function Line(i: nat, name: string): string {
    Decimal(i) + ":" + name
  }

  /** The lines printed from entry `i` on. */
  function Rendered(symbols: seq<Symbol>, i: nat): string
    requires i <= |symbols|
    decreases |symbols| - i
  {
    if i == |symbols| then ""
    else if symbols[i].isFunction && symbols[i].name.Some? then
      Line(i, symbols[i].name.value) + "\n" + Rendered(symbols, i + 1)
    else Rendered(symbols, i + 1)
  }

  function Concat(pieces: seq<string>): string {
    if pieces == [] then "" else pieces[0] + Concat(pieces[1..])
  }

  lemma {:induction false} ConcatSnoc(pieces: seq<string>, last: string)
    ensures Concat(pieces + [last]) == Concat(pieces) + last
  {
    if pieces != [] {
      ConcatSnoc(pieces[1..], last);
      assert (pieces + [last])[1..] == pieces[1..] + [last];
    }
  }

  /** The printing loop of extractFunctionNames.  The ghost results are the entries that
      are printed and what is printed for each: number, colon, name, end of line. */
  method PrintFunctionNames(symbols: seq<Symbol>)
    returns (outFile: string, ghost entries: seq<nat>, ghost pieces: seq<string>)
    ensures forall j, k | 0 <= j < k < |entries| :: entries[j] < entries[k]
    ensures forall j | 0 <= j < |entries| ::
              entries[j] < |symbols| && symbols[entries[j]].isFunction && symbols[entries[j]].name.Some?
    ensures forall i | 0 <= i < |symbols| && symbols[i].isFunction && symbols[i].name.Some? :: i in entries
    ensures |pieces| == |entries| && outFile == Concat(pieces)
    ensures forall j | 0 <= j < |entries| ::
              pieces[j] == Decimal(entries[j]) + ":" + symbols[entries[j]].name.value + "\n"
    ensures outFile == Rendered(symbols, 0)
  {
    outFile, entries, pieces := "", [], [];
    for i := 0 to |symbols|
      invariant Printing(symbols, i, outFile, entries, pieces)
    {
      outFile, entries, pieces := PrintSymbol(symbols, i, outFile, entries, pieces);
    }
    assert Rendered(symbols, |symbols|) == "" && outFile + "" == outFile;
  }

  /** One turn of the loop: a function with a name gets its line. */
  method PrintSymbol(symbols: seq<Symbol>, i: nat, text: string, ghost entries0: seq<nat>, ghost pieces0: seq<string>)
    returns (outFile: string, ghost entries: seq<nat>, ghost pieces: seq<string>)
    requires i < |symbols| && Printing(symbols, i, text, entries0, pieces0)
    ensures Printing(symbols, i + 1, outFile, entries, pieces)
  {
    outFile, entries, pieces := text, entries0, pieces0;
    var sym := symbols[i];
    PrintedNext(symbols, i, entries, pieces);
    if sym.isFunction {
      if sym.name.Some? {
        var line := Line(i, sym.name.value) + "\n";
        Append(text, line, Rendered(symbols, i + 1));
        ConcatSnoc(pieces, line);
        outFile := outFile + line;
        entries, pieces := entries + [i], pieces + [line];
      }
    }
  }

  lemma Append(a: string, b: string, c: string)
    ensures a + (b + c) == a + b + c
  {
  }

  /** The text in front of the `i`-th symbol. */
  ghost predicate Printing(symbols: seq<Symbol>, i: nat, outFile: string, entries: seq<nat>, pieces: seq<string>)
    requires i <= |symbols|
  {
    && outFile + Rendered(symbols, i) == Rendered(symbols, 0) && outFile == Concat(pieces)
    && PrintedUpTo(symbols, i, entries, pieces)
  }

  /** Of the first `i` entries, these are printed, in order. */
  ghost predicate PrintedUpTo(symbols: seq<Symbol>, i: nat, entries: seq<nat>, pieces: seq<string>)
    requires i <= |symbols|
  {
    && (forall j, k | 0 <= j < k < |entries| :: entries[j] < entries[k])
    && (forall j | 0 <= j < |entries| ::
          entries[j] < i && symbols[entries[j]].isFunction && symbols[entries[j]].name.Some?)
    && (forall k | 0 <= k < i && symbols[k].isFunction && symbols[k].name.Some? :: k in entries)
    && |pieces| == |entries|
    && forall j | 0 <= j < |entries| :: pieces[j] == Line(entries[j], symbols[entries[j]].name.value) + "\n"
  }

  lemma PrintedNext(symbols: seq<Symbol>, i: nat, entries: seq<nat>, pieces: seq<string>)
    requires i < |symbols| && PrintedUpTo(symbols, i, entries, pieces)
    ensures if symbols[i].isFunction && symbols[i].name.Some?
            then PrintedUpTo(symbols, i + 1, entries + [i], pieces + [Line(i, symbols[i].name.value) + "\n"])
            else PrintedUpTo(symbols, i + 1, entries, pieces)
  {
  }

  /** The lines of what is printed, if no name contains the end of a line. */
  lemma {:induction false} PrintedLines(symbols: seq<Symbol>, entries: seq<nat>, pieces: seq<string>)
    requires NewlineFree(symbols) && |pieces| == |entries|
    requires forall j | 0 <= j < |entries| :: entries[j] < |symbols| && symbols[entries[j]].name.Some?
    requires forall j | 0 <= j < |entries| ::
               pieces[j] == Decimal(entries[j]) + ":" + symbols[entries[j]].name.value + "\n"
    ensures |Lines(Concat(pieces))| == |entries|
    ensures forall j | 0 <= j < |entries| ::
              Lines(Concat(pieces))[j] == Decimal(entries[j]) + ":" + symbols[entries[j]].name.value
    decreases |pieces|
  {
    if pieces != [] {
      var i, rest := entries[0], pieces[1..];
      var line := Line(i, symbols[i].name.value);
      PrintedLines(symbols, entries[1..], rest);
      NumberOfDecimal(i);
      FirstLine(line, Concat(rest));
      assert Lines(Concat(pieces)) == [line] + Lines(Concat(rest));
    }
  }

  // ----- reading -----

  /** The place of the first `c`, or the length: std::string::find */
  function Find(s: string, c: char): (i: nat)
    ensures i <= |s|
    ensures i < |s| ==> s[i] == c
    ensures forall k | 0 <= k < i :: s[k] != c
  {
    if s == [] || s[0] == c then 0 else 1 + Find(s[1..], c)
  }

  lemma FindUnique(s: string, c: char, i: nat)
    requires i < |s| && s[i] == c && forall k | 0 <= k < i :: s[k] != c
    ensures Find(s, c) == i
  {
  }

  /** What repeated std::getline extracts. */
  function Lines(text: string): seq<string> {
    if text == [] then []
    else
      var n := Find(text, '\n');
      [text[..n]] + (if n < |text| then Lines(text[n + 1..]) else [])
  }

  function WithNewlines(lines: seq<string>): (pieces: seq<string>)
    ensures |pieces| == |lines| && forall i | 0 <= i < |lines| :: pieces[i] == lines[i] + "\n"
  {
    seq(|lines|, i requires 0 <= i < |lines| => lines[i] + "\n")
  }

  lemma ConcatLines(line: string, lines: seq<string>)
    ensures Concat(WithNewlines([line] + lines)) == line + "\n" + Concat(WithNewlines(lines))
  {
    var pieces := WithNewlines([line] + lines);
    assert pieces[1..] == WithNewlines(lines);
  }

  /** Lines are free of newlines. */
  lemma {:induction false} LinesFree(text: string)
    ensures forall i | 0 <= i < |Lines(text)| :: '\n' !in Lines(text)[i]
    decreases |text|
  {
    if text != "" {
      LinesStep(text);
      LinesFree(AfterLine(text));
    }
  }

  /** The newline that the text lacks at its end. */
  function Missing(text: string): string {
    if text == "" || text[|text| - 1] == '\n' then "" else "\n"
  }

  /** With newlines put behind them, the lines are the text; a missing one at its end is supplied. */
  lemma {:induction false} LinesExactly(text: string)
    ensures Concat(WithNewlines(Lines(text))) ==
            text + if text == "" || text[|text| - 1] == '\n' then "" else "\n"
    decreases |text|
  {
    if text != "" {
      LinesStep(text);
      FirstPiece(text, text[..Find(text, '\n')], AfterLine(text));
      LinesExactly(AfterLine(text));
      MissingStep(text);
    }
  }

  lemma FirstPiece(text: string, line: string, rest: string)
    requires Lines(text) == [line] + Lines(rest)
    ensures Concat(WithNewlines(Lines(text))) == line + "\n" + Concat(WithNewlines(Lines(rest)))
  {
    ConcatLines(line, Lines(rest));
  }

  lemma MissingStep(text: string)
    requires text != ""
    ensures text[..Find(text, '\n')] + "\n" + (AfterLine(text) + Missing(AfterLine(text))) == text + Missing(text)
  {
    var n, rest := Find(text, '\n'), AfterLine(text);
    if n < |text| {
      assert rest != "" ==> rest[|rest| - 1] == text[|text| - 1];
      Reassociate(text[..n], rest, Missing(rest));
      assert text == text[..n] + "\n" + rest;
    } else {
      assert text[..n] == text;
    }
  }

  lemma Reassociate(a: string, b: string, c: string)
    ensures a + "\n" + (b + c) == a + "\n" + b + c
  {
  }

  predicate IsSpace(c: char) {
    c == ' ' || ('\t' <= c <= '\r')
  }

  function SkipSpaces(s: string): string {
    if s != [] && IsSpace(s[0]) then SkipSpaces(s[1..]) else s
  }

  function DigitPrefix(s: string): (d: string)
    ensures AllDigits(d)
  {
    if s != [] && IsDigit(s[0]) then [s[0]] + DigitPrefix(s[1..]) else []
  }

  /** std::stoi; None is the exception it throws without digits or out of range. */
  function Stoi(s: string): Option<int> {
    SignedNumber(SkipSpaces(s))
  }

  function SignedNumber(t: string): Option<int> {
    var signed := t != [] && (t[0] == '-' || t[0] == '+');
    var digits := DigitPrefix(if signed then t[1..] else t);
    if digits == [] then None
    else
      var v: int := if signed && t[0] == '-' then -(Number(digits) as int) else Number(digits);
      if -0x8000_0000 <= v < 0x8000_0000 then Some(v) else None
  }

  /** Spaces, a sign or none, digits, and anything that does not go on with a digit: the
      number, unless it does not fit an int. */
  lemma StoiParses(spaces: string, sign: string, digits: string, rest: string)
    requires forall i | 0 <= i < |spaces| :: spaces[i] == ' ' || '\t' <= spaces[i] <= '\r'
    requires sign == "" || sign == "+" || sign == "-"
    requires digits != "" && AllDigits(digits) && (rest == "" || !IsDigit(rest[0]))
    ensures var v: int := if sign == "-" then -(Number(digits) as int) else Number(digits);
            Stoi(spaces + sign + digits + rest) == if -0x8000_0000 <= v <= 0x7FFF_FFFF then Some(v) else None
  {
    var u := digits + rest;
    assert u[0] == digits[0] && IsDigit(digits[0]);
    assert spaces + sign + digits + rest == spaces + (sign + u);
    SkipsSpaces(spaces, sign + u);
    SignedParses(sign, digits, rest);
  }

  lemma SignedParses(sign: string, digits: string, rest: string)
    requires sign == "" || sign == "+" || sign == "-"
    requires digits != "" && AllDigits(digits) && (rest == "" || !IsDigit(rest[0]))
    ensures var v: int := if sign == "-" then -(Number(digits) as int) else Number(digits);
            SignedNumber(sign + (digits + rest)) == if -0x8000_0000 <= v <= 0x7FFF_FFFF then Some(v) else None
  {
    assert (digits + rest)[0] == digits[0] && IsDigit(digits[0]);
    Unsigned(sign, digits + rest);
    PrefixOf(digits, rest);
  }

  lemma Unsigned(sign: string, u: string)
    requires sign == "" || sign == "+" || sign == "-"
    requires u != "" && IsDigit(u[0])
    ensures var t := sign + u;
            && t != "" && (t[0] == '-' <==> sign == "-") && (t[0] == '+' <==> sign == "+")
            && (if t[0] == '-' || t[0] == '+' then t[1..] else t) == u
  {
  }

  lemma {:induction false} SkipsSpaces(spaces: string, t: string)
    requires forall i | 0 <= i < |spaces| :: IsSpace(spaces[i])
    requires t != "" && !IsSpace(t[0])
    ensures SkipSpaces(spaces + t) == t
  {
    if spaces == "" {
      assert spaces + t == t;
    } else {
      SkipsSpaces(spaces[1..], t);
      assert (spaces + t)[1..] == spaces[1..] + t;
    }
  }

  lemma {:induction false} PrefixOf(digits: string, rest: string)
    requires AllDigits(digits) && (rest == "" || !IsDigit(rest[0]))
    ensures DigitPrefix(digits + rest) == digits
  {
    if digits == "" {
      assert digits + rest == rest;
    } else {
      PrefixOf(digits[1..], rest);
      assert (digits + rest)[1..] == digits[1..] + rest;
    }
  }

  /** Without a digit behind the spaces and the sign there is no number. */
  lemma StoiRefuses(spaces: string, sign: string, rest: string)
    requires forall i | 0 <= i < |spaces| :: spaces[i] == ' ' || '\t' <= spaces[i] <= '\r'
    requires sign == "" || sign == "+" || sign == "-"
    requires rest == "" || !IsDigit(rest[0])
    requires sign == "" && rest != "" ==> !IsSpace(rest[0]) && rest[0] != '+' && rest[0] != '-'
    ensures Stoi(spaces + sign + rest) == None
  {
    var t := sign + rest;
    assert spaces + sign + rest == spaces + t;
    if t == "" {
      OnlySpaces(spaces);
      assert spaces + t == spaces;
    } else {
      SkipsSpaces(spaces, t);
      assert sign != "" ==> t[1..] == rest;
    }
  }

  lemma {:induction false} OnlySpaces(spaces: string)
    requires forall i | 0 <= i < |spaces| :: IsSpace(spaces[i])
    ensures SkipSpaces(spaces) == ""
  {
    if spaces != "" {
      OnlySpaces(spaces[1..]);
    }
  }

  type StringMap = map<string, int>

  /** One line; a line without a colon is reported and skipped. */
  function ReadLine(m: StringMap, line: string): Option<StringMap> {
    var colonPos := Find(line, ':');
    if colonPos == |line| then Some(m)
    else
      match Stoi(line[..colonPos])
      case None => None
      case Some(value) => Some(m[line[colonPos + 1..] := value])
  }

  /** A line without a colon changes nothing. */
  lemma LineWithoutColon(m: StringMap, line: string)
    requires ':' !in line
    ensures ReadLine(m, line) == Some(m)
  {
  }

  /** What stands before the first colon is the number, the rest is the name. */
  lemma LineAtColon(m: StringMap, number: string, name: string)
    requires ':' !in number
    ensures ReadLine(m, number + ":" + name) ==
            match Stoi(number)
            case None => None
            case Some(value) => Some(m[name := value])
  {
    var line := number + ":" + name;
    assert forall k | 0 <= k < |number| :: line[k] == number[k];
    FindUnique(line, ':', |number|);
    assert line[..|number|] == number && line[|number| + 1..] == name;
  }

  /** All lines, or None when some line makes the conversion throw. */
  function ReadLines(m: StringMap, lines: seq<string>): Option<StringMap>
    decreases |lines|
  {
    if lines == [] then Some(m)
    else
      match ReadLine(m, lines[0])
      case None => None
      case Some(m') => ReadLines(m', lines[1..])
  }

  /** The entries of the lines before the first one that makes the conversion throw. */
  function EntriesRead(m: StringMap, lines: seq<string>): StringMap
    decreases |lines|
  {
    if lines == [] then m
    else
      match ReadLine(m, lines[0])
      case None => m
      case Some(m') => EntriesRead(m', lines[1..])
  }

  /** One more line at the end is read into what the lines before it have left, unless one of
      them could not be read. */
  lemma {:induction false} ReadLinesSnoc(m: StringMap, lines: seq<string>, line: string)
    ensures ReadLines(m, []) == Some(m) && EntriesRead(m, []) == m
    ensures ReadLines(m, lines).Some? ==> ReadLines(m, lines).value == EntriesRead(m, lines)
    ensures ReadLines(m, lines + [line]) ==
            if ReadLines(m, lines).Some? then ReadLine(EntriesRead(m, lines), line) else None
    ensures EntriesRead(m, lines + [line]) ==
            if ReadLines(m, lines + [line]).Some? then ReadLines(m, lines + [line]).value else EntriesRead(m, lines)
    decreases |lines|
  {
    var longer := lines + [line];
    if lines == [] {
      assert longer[1..] == [];
    } else {
      assert longer[1..] == lines[1..] + [line] && longer[0] == lines[0];
      if ReadLine(m, lines[0]).Some? {
        ReadLinesSnoc(ReadLine(m, lines[0]).value, lines[1..], line);
      }
    }
  }

  /** The text behind the first line. */
  function AfterLine(text: string): (rest: string)
    requires text != []
    ensures |rest| < |text|
  {
    var end := Find(text, '\n');
    if end < |text| then text[end + 1..] else []
  }

  lemma LinesStep(text: string)
    requires text != []
    ensures Lines(text) == [text[..Find(text, '\n')]] + Lines(AfterLine(text))
  {
  }

  lemma ReadLinesCons(m: StringMap, line: string, lines: seq<string>)
    ensures ReadLines(m, [line] + lines) ==
            match ReadLine(m, line)
            case None => None
            case Some(m') => ReadLines(m', lines)
    ensures EntriesRead(m, [line] + lines) ==
            match ReadLine(m, line)
            case None => m
            case Some(m') => EntriesRead(m', lines)
  {
    assert ([line] + lines)[1..] == lines;
  }

  datatype ReadStatus = Read | NotOpened | Threw

  class FileToMapReader {
    var stringMap: StringMap
    var loaded: bool

    constructor ()
      ensures stringMap == map[] && !loaded
    {
      stringMap, loaded := map[], false;
    }

    /** readFileToMap; `file` is None when the file cannot be opened. */
    method ReadFileToMap(file: Option<string>) returns (status: ReadStatus)
      modifies this
      ensures file.None? ==> status == NotOpened && !loaded && stringMap == old(stringMap)
      ensures file.Some? ==> stringMap == EntriesRead(old(stringMap), Lines(file.value))
      ensures file.Some? ==>
                match ReadLines(old(stringMap), Lines(file.value))
                case None => status == Threw && !loaded
                case Some(m) => status == Read && loaded && stringMap == m
    {
      loaded := false;
      if file.None? {
        return NotOpened;
      }
      var rest := file.value;
      while rest != []
        invariant !loaded
        invariant ReadLines(stringMap, Lines(rest)) == ReadLines(old(stringMap), Lines(file.value))
        invariant EntriesRead(stringMap, Lines(rest)) == EntriesRead(old(stringMap), Lines(file.value))
        decreases |rest|
      {
        var line := rest[..Find(rest, '\n')];
        LinesStep(rest);
        rest := AfterLine(rest);
        ReadLinesCons(stringMap, line, Lines(rest));
        var colonPos := Find(line, ':');
        if colonPos != |line| {
          var key := line[colonPos + 1..];
          var value := Stoi(line[..colonPos]);
          if value.None? {
            return Threw;
          }
          stringMap := stringMap[key := value.value];
        }
      }
      loaded := true;
      return Read;
    }

    predicate IsStringInMap(str: string)
      reads this
    {
      loaded && str in stringMap
    }

    function GetValueFromMap(str: string): int
      reads this
    {
      if str in stringMap then stringMap[str] else -1
    }
  }

  // ----- the round trip -----

  /** The entries from `i` on, added one after the other. */
  function Indexed(m: StringMap, symbols: seq<Symbol>, i: nat): StringMap
    requires i <= |symbols|
    decreases |symbols| - i
  {
    if i == |symbols| then m
    else if symbols[i].isFunction && symbols[i].name.Some? then
      Indexed(m[symbols[i].name.value := i], symbols, i + 1)
    else Indexed(m, symbols, i + 1)
  }

  ghost predicate NewlineFree(symbols: seq<Symbol>) {
    forall i | 0 <= i < |symbols| && symbols[i].name.Some? :: '\n' !in symbols[i].name.value
  }

  lemma {:induction false} DigitPrefixOfDigits(s: string)
    requires AllDigits(s)
    ensures DigitPrefix(s) == s
  {
    if s != [] {
      DigitPrefixOfDigits(s[1..]);
    }
  }

  lemma StoiOfDecimal(n: nat)
    requires n < INT_LIMIT
    ensures Stoi(Decimal(n)) == Some(n)
  {
    var s := Decimal(n);
    NumberOfDecimal(n);
    assert IsDigit(s[0]);
    DigitPrefixOfDigits(s);
  }

  /** A printed line is read back as its index and its name, colons in the name included. */
  lemma ReadPrintedLine(m: StringMap, i: nat, name: string)
    requires i < INT_LIMIT
    ensures ReadLine(m, Line(i, name)) == Some(m[name := i])
  {
    var s, d := Line(i, name), Decimal(i);
    NumberOfDecimal(i);
    assert forall k | 0 <= k < |d| :: s[k] == d[k] && IsDigit(d[k]);
    FindUnique(s, ':', |d|);
    assert s[..|d|] == d && s[|d| + 1..] == name;
    StoiOfDecimal(i);
  }

  lemma FirstLine(line: string, rest: string)
    requires '\n' !in line
    ensures Lines(line + "\n" + rest) == [line] + Lines(rest)
  {
    var text := line + "\n" + rest;
    assert forall k | 0 <= k < |line| :: text[k] == line[k];
    FindUnique(text, '\n', |line|);
    assert text[..|line|] == line && text[|line| + 1..] == rest;
  }

  lemma {:induction false} ReadRendered(m: StringMap, symbols: seq<Symbol>, i: nat)
    requires i <= |symbols| <= INT_LIMIT && NewlineFree(symbols)
    ensures ReadLines(m, Lines(Rendered(symbols, i))) == Some(Indexed(m, symbols, i))
    decreases |symbols| - i
  {
    if i < |symbols| {
      if symbols[i].isFunction && symbols[i].name.Some? {
        var name := symbols[i].name.value;
        NumberOfDecimal(i);
        FirstLine(Line(i, name), Rendered(symbols, i + 1));
        ReadPrintedLine(m, i, name);
        ReadRendered(m[name := i], symbols, i + 1);
      } else {
        ReadRendered(m, symbols, i + 1);
      }
    }
  }

  /** Later entries win: a name is mapped to the largest index it is listed under. */
  lemma {:induction false} IndexedLargest(m: StringMap, symbols: seq<Symbol>, i: nat, name: string)
    requires i <= |symbols|
    ensures var r := Indexed(m, symbols, i);
            if ListedFrom(symbols, i, name) then
              && name in r && i <= r[name] < |symbols| && Listed(symbols, r[name], name)
              && forall k | r[name] < k < |symbols| :: !Listed(symbols, k, name)
            else (name in r <==> name in m) && (name in m ==> r[name] == m[name])
    decreases |symbols| - i
  {
    if i < |symbols| {
      var m' := if symbols[i].isFunction && symbols[i].name.Some? then m[symbols[i].name.value := i] else m;
      IndexedLargest(m', symbols, i + 1, name);
      assert ListedFrom(symbols, i, name) <==> Listed(symbols, i, name) || ListedFrom(symbols, i + 1, name);
    }
  }

  /** Printing a symbol table and reading it into an empty reader: every listed name has
      the largest index it was printed with, every other name has -1. */
  method PrintAndRead(symbols: seq<Symbol>, name: string) returns (found: bool, value: int)
    requires |symbols| <= INT_LIMIT && NewlineFree(symbols)
    ensures found <==> ListedFrom(symbols, 0, name)
    ensures found ==>
              && 0 <= value < |symbols| && Listed(symbols, value, name)
              && forall k | value < k < |symbols| :: !Listed(symbols, k, name)
    ensures !found ==> value == -1
  {
    var text, entries, pieces := PrintFunctionNames(symbols);
    var reader := new FileToMapReader();
    ReadRendered(map[], symbols, 0);
    IndexedLargest(map[], symbols, 0, name);
    var status := reader.ReadFileToMap(Some(text));
    found := reader.IsStringInMap(name);
    value := reader.GetValueFromMap(name);
  }
}
