/** Where files go: partitions, file names, and when two targets are one file
    (tick_score/src/batcher.rs, catalog.rs). */
module Paths {
  import opened Bytes

  datatype Kind = Quote | Trade

  type Symbol = seq<Byte>
  type Date = int

  datatype Partition = Partition(symbol: Symbol, kind: Kind, date: Date)

  datatype FileName = PartFile(n: nat) | MergedFile(n: nat)

  datatype FilePath = FilePath(partition: Partition, name: FileName)

  function Label(kind: Kind): seq<Byte>
  {
    match kind
    case Quote => [81, 117, 111, 116, 101]
    case Trade => [84, 114, 97, 100, 101]
  }

  const PART: seq<Byte> := [112, 97, 114, 116, 45]
  const MERGED: seq<Byte> := [109, 101, 114, 103, 101, 100, 45]
  const PARQUET: seq<Byte> := [46, 112, 97, 114, 113, 117, 101, 116]

  /** `part-{n}.parquet` or `merged-{n}.parquet`. */
  function FileText(name: FileName): (text: seq<Byte>)
    ensures |text| > 2
  {
    match name
    case PartFile(n) => PART + Print(n) + PARQUET
    case MergedFile(n) => MERGED + Print(n) + PARQUET
  }

  lemma Names(n: nat)
    ensures Label(Quote) == Ascii("Quote") && Label(Trade) == Ascii("Trade")
    ensures FileText(PartFile(n)) == Ascii("part-") + Print(n) + Ascii(".parquet")
    ensures FileText(MergedFile(n)) == Ascii("merged-") + Print(n) + Ascii(".parquet")
  {
    hide Print;
    assert Ascii("Quote") == Label(Quote) && Ascii("Trade") == Label(Trade);
    assert Ascii("part-") == PART && Ascii("merged-") == MERGED && Ascii(".parquet") == PARQUET;
  }

  const SLASH: Byte := 47
  const DOT: seq<Byte> := [46]
  const DOTDOT: seq<Byte> := [46, 46]

  // ---------- Which symbols are let through ----------

  predicate IsSymbolByte(b: Byte)
  {
    48 <= b <= 57 || 65 <= b <= 90 || 97 <= b <= 122 || b == 46 || b == 95 || b == 45
  }

  /** `is_safe_symbol`. */
  predicate IsSafeSymbol(symbol: Symbol)
  {
    symbol != [] && |symbol| <= 32 && forall i :: 0 <= i < |symbol| ==> IsSymbolByte(symbol[i])
  }

  predicate IsTickerChar(c: char)
  {
    'A' <= c <= 'Z' || 'a' <= c <= 'z' || '0' <= c <= '9' || c == '.' || c == '_' || c == '-'
  }

  /** Exactly the texts of 1 to 32 letters, digits, dots, underscores and dashes. */
  lemma SafeExactly(symbol: Symbol)
    ensures IsSafeSymbol(symbol)
      <==> 1 <= |symbol| <= 32 && forall i :: 0 <= i < |symbol| ==> IsTickerChar(symbol[i] as char)
  {
  }

  /** So no separator and no NUL is let through, but an ordinary ticker is. */
  lemma NoSeparators(symbol: Symbol)
    ensures IsSafeSymbol(symbol) ==> SLASH !in symbol && 0 !in symbol
    ensures IsSafeSymbol(Ascii("BTC-USD")) && !IsSafeSymbol(Ascii("../../etc/passwd"))
  {
    var bad := Ascii("../../etc/passwd");
    assert bad[2] == 47;
  }

  // ---------- From a target to the text of its path ----------

  /** `PathBuf::push`: an absolute part replaces the path. */
  function Push(path: seq<Byte>, part: seq<Byte>): seq<Byte>
  {
    if part != [] && part[0] == SLASH then part
    else if path == [] || path[|path| - 1] == SLASH then path + part
    else path + [SLASH] + part
  }

  /** How dates are written is the date library's business. */
  type DateText = Date -> seq<Byte>

  /** A name one directory entry can have, that says nothing of the way to it. */
  predicate IsName(part: seq<Byte>)
  {
    part != [] && part != DOT && part != DOTDOT && SLASH !in part
  }

  ghost predicate NamesDates(text: DateText)
  {
    (forall d :: IsName(text(d))) && (forall a, b :: text(a) == text(b) ==> a == b)
  }

  /** One way of writing dates that will do: `p` or `m`, and a number. */
  function SimpleDate(d: Date): seq<Byte>
  {
    if d < 0 then [109] + Print(-d) else [112] + Print(d)
  }

  lemma SimpleDateParts(d: Date)
    ensures |SimpleDate(d)| > 1 && SimpleDate(d)[0] == (if d < 0 then 109 else 112)
    ensures SimpleDate(d)[1..] == Print(if d < 0 then -d else d) && SLASH !in SimpleDate(d)
  {
    PrintValue(if d < 0 then -d else d);
    var digits := Print(if d < 0 then -d else d);
    assert SLASH !in digits;
    assert SimpleDate(d)[1..] == digits;
  }

  lemma DatesCanBeNamed()
    ensures NamesDates(SimpleDate)
  {
    hide Print, SimpleDate;
    forall d
      ensures IsName(SimpleDate(d))
    {
      SimpleDateParts(d);
    }
    forall a, b | SimpleDate(a) == SimpleDate(b)
      ensures a == b
    {
      SimpleDateParts(a);
      SimpleDateParts(b);
      PrintInjective(if a < 0 then -a else a, if b < 0 then -b else b);
    }
  }

  /** `get_output_path`. */
  function OutputPath(base: seq<Byte>, p: FilePath, text: DateText): seq<Byte>
  {
    Push(Push(Push(Push(base, Label(p.partition.kind)), text(p.partition.date)), p.partition.symbol), FileText(p.name))
  }

  // ---------- What the file system makes of it ----------

  /** The parts between the separators. */
  function Split(path: seq<Byte>): (parts: seq<seq<Byte>>)
    ensures |parts| > 0
    decreases |path|
  {
    var i := Find(path, 0, SLASH);
    if i == |path| then [path] else [path[..i]] + Split(path[i + 1..])
  }

  /** The directory entry reached: empty parts and `.` stay, `..` goes up. */
  function Resolve(parts: seq<seq<Byte>>): seq<seq<Byte>>
  {
    if parts == [] then []
    else
      var front := Resolve(parts[..|parts| - 1]);
      var last := parts[|parts| - 1];
      if last == [] || last == DOT then front
      else if last == DOTDOT then (if front == [] then [] else front[..|front| - 1])
      else front + [last]
  }

  /** The directory entry a target is written to. */
  function Entry(base: seq<Byte>, p: FilePath, text: DateText): seq<seq<Byte>>
  {
    Resolve(Split(OutputPath(base, p, text)))
  }

  lemma ResolveSnoc(parts: seq<seq<Byte>>, last: seq<Byte>)
    ensures Resolve(parts + [last])
            == if last == [] || last == DOT then Resolve(parts)
               else if last == DOTDOT then
                 (if Resolve(parts) == [] then [] else Resolve(parts)[..|Resolve(parts)| - 1])
               else Resolve(parts) + [last]
  {
    assert (parts + [last])[..|parts|] == parts;
  }

  /** No part holds a separator. */
  lemma {:induction false} SplitParts(path: seq<Byte>)
    ensures forall part :: part in Split(path) ==> SLASH !in part
    decreases |path|
  {
    var i := Find(path, 0, SLASH);
    if i < |path| {
      SplitParts(path[i + 1..]);
    }
  }

  /** The first part ends at the first separator. */
  lemma SplitFirst(part: seq<Byte>, rest: seq<Byte>)
    requires SLASH !in part
    ensures Split(part + [SLASH] + rest) == [part] + Split(rest)
  {
    var path := part + [SLASH] + rest;
    FindIs(path, 0, SLASH, |part|);
    assert path[..|part|] == part && path[|part| + 1..] == rest;
  }

  /** A separator in between splits for good. */
  lemma {:induction false} SplitJoined(a: seq<Byte>, b: seq<Byte>)
    ensures Split(a + [SLASH] + b) == Split(a) + Split(b)
    decreases |a|
  {
    hide Split;
    var i := Find(a, 0, SLASH);
    var part := a[..i];
    assert SLASH !in part;
    if i < |a| {
      var rest := a[i + 1..];
      assert a == part + [SLASH] + rest && a + [SLASH] + b == part + [SLASH] + (rest + [SLASH] + b);
      SplitFirst(part, rest);
      SplitFirst(part, rest + [SLASH] + b);
      SplitJoined(rest, b);
      assert [part] + (Split(rest) + Split(b)) == ([part] + Split(rest)) + Split(b);
    } else {
      assert a == part;
      SplitOne(a);
      SplitFirst(a, b);
    }
  }

  lemma SplitOne(part: seq<Byte>)
    requires SLASH !in part
    ensures Split(part) == [part]
  {
    FindIs(part, 0, SLASH, |part|);
  }

  /** A path that names something and does not end in a separator. */
  predicate IsPlain(path: seq<Byte>)
  {
    path != [] && path[|path| - 1] != SLASH
  }

  lemma PushEnds(path: seq<Byte>, part: seq<Byte>)
    requires part != [] && SLASH !in part
    ensures IsPlain(Push(path, part))
    ensures IsPlain(path) ==> Push(path, part) == path + [SLASH] + part
  {
    assert part[|part| - 1] in part && part[0] in part;
  }

  /** Where the data directory itself is. */
  function Home(base: seq<Byte>): seq<seq<Byte>>
  {
    Resolve(Split(base))
  }

  /** Pushing a part appends it, as far as the file system is concerned, if it has no separator. */
  lemma PushAppends(path: seq<Byte>, part: seq<Byte>)
    requires SLASH !in part
    ensures Resolve(Split(Push(path, part))) == Resolve(Split(path) + [part])
  {
    hide Resolve, Split;
    SplitOne(part);
    if path == [] {
      assert [] + part == part;
      SplitOne([]);
      PartAlone(part);
    } else if path[|path| - 1] == SLASH {
      var front, none: seq<Byte> := path[..|path| - 1], [];
      assert path == front + [SLASH] + [] && path + part == front + [SLASH] + part;
      SplitJoined(front, []);
      SplitJoined(front, part);
      SplitOne([]);
      ResolveSnoc(Split(front), []);
      ResolveSnoc(Split(front), part);
      ResolveSnoc(Split(front) + [none], part);
    } else {
      SplitJoined(path, part);
    }
  }

  lemma PartAlone(part: seq<Byte>)
    ensures Resolve([part]) == Resolve([[]] + [part])
  {
    hide Resolve;
    var none: seq<Byte> := [];
    var empty: seq<seq<Byte>> := [];
    assert [part] == empty + [part] && [none] == empty + [none];
    ResolveSnoc(empty, part);
    ResolveSnoc(empty, none);
    ResolveSnoc([none], part);
  }

  lemma PushResolves(path: seq<Byte>, part: seq<Byte>)
    requires SLASH !in part
    ensures var before := Resolve(Split(path));
      Resolve(Split(Push(path, part)))
      == if part == [] || part == DOT then before
         else if part == DOTDOT then (if before == [] then [] else before[..|before| - 1])
         else before + [part]
  {
    hide Resolve, Split, Push;
    PushAppends(path, part);
    ResolveSnoc(Split(path), part);
  }

  lemma LabelsAndFilesAreNames(p: FilePath)
    ensures IsName(Label(p.partition.kind)) && IsName(FileText(p.name))
  {
    hide Print, Value;
    PrintValue(p.name.n);
    assert forall b :: b in Print(p.name.n) ==> IsDigit(b);
  }

  /** What a target resolves to, by what its symbol is. */
  lemma Resolved(base: seq<Byte>, p: FilePath, text: DateText)
    requires SLASH !in p.partition.symbol && p.partition.symbol != [] && NamesDates(text)
    ensures var kindDir, date, symbol, file :=
        Label(p.partition.kind), text(p.partition.date), p.partition.symbol, FileText(p.name);
      Entry(base, p, text)
      == Home(base) + if symbol == DOT then [kindDir, date, file]
                      else if symbol == DOTDOT then [kindDir, file]
                      else [kindDir, date, symbol, file]
  {
    hide FileText, Label, Resolve, Split, Push;
    LabelsAndFilesAreNames(p);
    var kindDir, date, symbol, file := Label(p.partition.kind), text(p.partition.date), p.partition.symbol, FileText(p.name);
    assert IsName(date);
    var path1 := Push(base, kindDir);
    var path2 := Push(path1, date);
    var path3 := Push(path2, symbol);
    PushResolves(base, kindDir);
    PushResolves(path1, date);
    PushResolves(path2, symbol);
    PushResolves(path3, file);
    var home := Home(base);
    assert home + [kindDir] + [date] == home + [kindDir, date];
    assert (home + [kindDir, date])[..|home| + 1] == home + [kindDir];
    assert home + [kindDir, date] + [symbol] == home + [kindDir, date, symbol];
    assert home + [kindDir, date] + [file] == home + [kindDir, date, file];
    assert home + [kindDir] + [file] == home + [kindDir, file];
    assert home + [kindDir, date, symbol] + [file] == home + [kindDir, date, symbol, file];
  }

  /** The written path splits back into the data directory's parts, the kind, the date, the
      symbol and the file exactly when the symbol has no separator. */
  lemma SplitsBack(base: seq<Byte>, p: FilePath, text: DateText)
    requires NamesDates(text) && IsPlain(base) && p.partition.symbol != []
    ensures Split(OutputPath(base, p, text))
            == Split(base) + [Label(p.partition.kind), text(p.partition.date), p.partition.symbol, FileText(p.name)]
      <==> SLASH !in p.partition.symbol
  {
    hide FileText, Label, Split;
    LabelsAndFilesAreNames(p);
    var kindDir, date, symbol, file := Label(p.partition.kind), text(p.partition.date), p.partition.symbol, FileText(p.name);
    assert IsName(date);
    var parts := Split(base) + [kindDir, date, symbol, file];
    if SLASH in symbol {
      SplitParts(OutputPath(base, p, text));
      assert parts[|Split(base)| + 2] == symbol;
    } else {
      PartsJoined(base, kindDir, date, symbol, file);
    }
  }

  lemma PartsJoined(base: seq<Byte>, a: seq<Byte>, b: seq<Byte>, c: seq<Byte>, d: seq<Byte>)
    requires IsPlain(base)
    requires a != [] && b != [] && c != [] && d != []
    requires SLASH !in a && SLASH !in b && SLASH !in c && SLASH !in d
    ensures Split(Push(Push(Push(Push(base, a), b), c), d)) == Split(base) + [a, b, c, d]
  {
    hide Split, Push, IsPlain;
    OnePart(base, a);
    OnePart(Push(base, a), b);
    OnePart(Push(Push(base, a), b), c);
    OnePart(Push(Push(Push(base, a), b), c), d);
    assert Split(base) + [a] + [b] + [c] + [d] == Split(base) + [a, b, c, d];
  }

  lemma OnePart(path: seq<Byte>, part: seq<Byte>)
    requires IsPlain(path) && part != [] && SLASH !in part
    ensures IsPlain(Push(path, part)) && Split(Push(path, part)) == Split(path) + [part]
  {
    hide Split, Push, IsPlain;
    PushEnds(path, part);
    SplitJoined(path, part);
    SplitOne(part);
  }

  lemma SafeIsPart(symbol: Symbol)
    requires IsSafeSymbol(symbol)
    ensures SLASH !in symbol && symbol != []
  {
  }

  lemma FileTextInjective(a: FileName, b: FileName)
    requires FileText(a) == FileText(b)
    ensures a == b
  {
    hide Print;
    assert FileText(a)[0] == if a.PartFile? then 112 else 109;
    assert FileText(b)[0] == if b.PartFile? then 112 else 109;
    var k := if a.PartFile? then |PART| else |MERGED|;
    NumberIn(a, k);
    NumberIn(b, k);
    PrintInjective(a.n, b.n);
  }

  lemma NumberIn(a: FileName, k: nat)
    requires k == if a.PartFile? then |PART| else |MERGED|
    ensures |FileText(a)| >= k + |PARQUET| && FileText(a)[k..|FileText(a)| - |PARQUET|] == Print(a.n)
  {
    hide Print;
  }

  /** Every safe symbol keeps its files inside the directory of its own kind. */
  lemma StaysUnderKind(base: seq<Byte>, p: FilePath, text: DateText)
    requires IsSafeSymbol(p.partition.symbol) && NamesDates(text)
    ensures Home(base) + [Label(p.partition.kind)] < Entry(base, p, text)
  {
    hide Home, Entry, NamesDates, IsSafeSymbol;
    SafeIsPart(p.partition.symbol);
    Resolved(base, p, text);
  }

  /** A symbol with separators, which is not let through, would lead anywhere. */
  lemma SeparatorsEscape(base: seq<Byte>, p: FilePath, text: DateText, rest: seq<Byte>)
    requires NamesDates(text) && IsName(rest)
    requires p.partition.symbol == DOTDOT + [SLASH] + DOTDOT + [SLASH] + rest
    ensures !IsSafeSymbol(p.partition.symbol)
    ensures Entry(base, p, text) == Home(base) + [rest, FileText(p.name)]
  {
    hide FileText, Label, Resolve, Split, Push, NamesDates;
    UnsafeAt(p.partition.symbol, 2);
    LabelsAndFilesAreNames(p);
    var kindDir, date, file := Label(p.partition.kind), text(p.partition.date), FileText(p.name);
    DateIsName(text, p.partition.date);
    var path1 := Push(base, kindDir);
    var path2 := Push(path1, date);
    PushEnds(path1, date);
    PushTwoUp(path2, rest);
    PushResolves(base, kindDir);
    PushResolves(path1, date);
    UpTwice(path2, Home(base), kindDir, date);
    var path4 := Push(Push(path2, DOTDOT), DOTDOT);
    PushResolves(path4, rest);
    PushResolves(Push(path4, rest), file);
    assert Home(base) + [rest] + [file] == Home(base) + [rest, file];
  }

  /** One that is absolute would put the data directory itself aside. */
  lemma AbsoluteReplaces(base: seq<Byte>, p: FilePath, text: DateText)
    requires |p.partition.symbol| > 1 && p.partition.symbol[0] == SLASH
    requires p.partition.symbol[|p.partition.symbol| - 1] != SLASH
    ensures !IsSafeSymbol(p.partition.symbol)
    ensures OutputPath(base, p, text) == p.partition.symbol + [SLASH] + FileText(p.name)
  {
    hide Print;
    UnsafeAt(p.partition.symbol, 0);
  }

  lemma UnsafeAt(symbol: Symbol, i: nat)
    requires i < |symbol| && symbol[i] == SLASH
    ensures !IsSafeSymbol(symbol)
  {
  }

  lemma DateIsName(text: DateText, d: Date)
    requires NamesDates(text)
    ensures IsName(text(d))
  {
  }

  lemma UpTwice(path: seq<Byte>, home: seq<seq<Byte>>, a: seq<Byte>, b: seq<Byte>)
    requires Resolve(Split(path)) == home + [a] + [b]
    ensures Resolve(Split(Push(Push(path, DOTDOT), DOTDOT))) == home
  {
    hide Resolve, Split, Push;
    PushResolves(path, DOTDOT);
    PushResolves(Push(path, DOTDOT), DOTDOT);
    assert (home + [a] + [b])[..|home| + 1] == home + [a] && (home + [a])[..|home|] == home;
  }

  lemma PushTwoUp(path: seq<Byte>, rest: seq<Byte>)
    requires IsPlain(path) && IsName(rest)
    ensures Push(path, DOTDOT + [SLASH] + DOTDOT + [SLASH] + rest) == Push(Push(Push(path, DOTDOT), DOTDOT), rest)
  {
    PushEnds(path, DOTDOT);
    PushEnds(Push(path, DOTDOT), DOTDOT);
    PushEnds(Push(Push(path, DOTDOT), DOTDOT), rest);
    var part := DOTDOT + [SLASH] + DOTDOT + [SLASH] + rest;
    assert part[0] == 46;
    assert Push(path, part) == path + [SLASH] + part;
    hide Push, IsPlain;
    assert path + [SLASH] + part == path + [SLASH] + DOTDOT + [SLASH] + DOTDOT + [SLASH] + rest;
  }

  /** Two targets are the same file exactly when they agree in kind, symbol, date and file
      name, except that the symbol `..`, which is let through, drops the date. */
  lemma SameFile(base: seq<Byte>, a: FilePath, b: FilePath, text: DateText)
    requires IsSafeSymbol(a.partition.symbol) && IsSafeSymbol(b.partition.symbol) && NamesDates(text)
    ensures Entry(base, a, text) == Entry(base, b, text)
      <==> a == b || (a.(partition := a.partition.(date := b.partition.date)) == b && a.partition.symbol == DOTDOT)
  {
    hide Resolve, OutputPath, FileText, Label, IsSafeSymbol, Split;
    SafeIsPart(a.partition.symbol);
    SafeIsPart(b.partition.symbol);
    Resolved(base, a, text);
    Resolved(base, b, text);
    LabelsDiffer();
    if Entry(base, a, text) == Entry(base, b, text) {
      var r := Entry(base, a, text)[|Home(base)|..];
      assert r == Entry(base, b, text)[|Home(base)|..];
      assert r[|r| - 1] == FileText(a.name) == FileText(b.name);
      assert r[0] == Label(a.partition.kind) == Label(b.partition.kind);
      FileTextInjective(a.name, b.name);
      assert a.partition.kind == b.partition.kind;
      if |r| == 4 {
        assert r[1] == text(a.partition.date) == text(b.partition.date);
        assert r[2] == a.partition.symbol == b.partition.symbol;
      } else if |r| == 3 {
        assert r[1] == text(a.partition.date) == text(b.partition.date);
        assert a.partition.symbol == DOT == b.partition.symbol;
      } else {
        assert a.partition.symbol == DOTDOT == b.partition.symbol;
      }
    }
  }

  /** The symbol `..` is let through, and two days' files of it are then one file. */
  lemma DotDotDropsTheDate(base: seq<Byte>, kind: Kind, name: FileName, first: Date, second: Date, text: DateText)
    requires NamesDates(text)
    ensures IsSafeSymbol(Ascii(".."))
    ensures var a, b := FilePath(Partition(Ascii(".."), kind, first), name), FilePath(Partition(Ascii(".."), kind, second), name);
      Entry(base, a, text) == Entry(base, b, text) && (first != second ==> a != b)
  {
    hide Entry;
    assert Ascii("..") == DOTDOT;
    SameFile(base, FilePath(Partition(DOTDOT, kind, first), name), FilePath(Partition(DOTDOT, kind, second), name), text);
  }

  lemma LabelsDiffer()
    ensures Label(Quote) != Label(Trade)
  {
    assert Label(Quote)[0] != Label(Trade)[0];
  }

  /** Within one run all targets share the date: distinct targets are distinct files. */
  lemma TargetsOfOneDay(base: seq<Byte>, a: FilePath, b: FilePath, text: DateText)
    requires IsSafeSymbol(a.partition.symbol) && IsSafeSymbol(b.partition.symbol) && NamesDates(text)
    requires a.partition.date == b.partition.date
    ensures Entry(base, a, text) == Entry(base, b, text) <==> a == b
  {
    hide Entry;
    SameFile(base, a, b, text);
  }
}
