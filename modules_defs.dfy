/**
 * Source files, spans of source text, tokens and modules, as the front end
 * of the CSL compiler shares them. Spans and modules point at a `File`, so
 * files, tokens and modules are objects; a span is a value.
 */
module ModulesDefs {
  import opened Util

  const TWO_31: int := 0x8000_0000
  const TWO_32: int := 0x1_0000_0000
  const TWO_64: int := 0x1_0000_0000_0000_0000

  /** x fits a 32-bit signed int, the type of a span's fields. */
  predicate IsInt32(x: int)
  {
    -TWO_31 <= x < TWO_31
  }

  /** The conversion of an integer to a 32-bit signed int: reduction modulo 2^32. */
  function ToInt32(x: int): (r: int)
    ensures IsInt32(r) && (x - r) % TWO_32 == 0
    ensures IsInt32(x) ==> r == x
    ensures TWO_31 <= x < TWO_32 ==> r == x - TWO_32
  {
    (x + TWO_31) % TWO_32 - TWO_31
  }

  /** The conversion of an int to size_t: reduction modulo 2^64. */
  function ToSize(x: int): (r: nat)
    ensures r < TWO_64
    ensures 0 <= x < TWO_64 ==> r == x
    ensures -TWO_64 <= x < 0 ==> r == x + TWO_64
  {
    x % TWO_64
  }

  function Min(a: int, b: int): int
  {
    if a <= b then a else b
  }

  /** The exception std::string::substr throws. */
  datatype StrError = OutOfRange

  /**
   * std::string::substr(pos, count): out_of_range when pos lies past the end,
   * otherwise the longest prefix of the text from pos that has at most count
   * characters.
   */
  function Substr(s: string, pos: nat, count: nat): (r: Result<string, StrError>)
    ensures r.Err? <==> pos > |s|
    ensures r.Ok? ==> pos + |r.value| <= |s| && r.value == s[pos..pos + |r.value|]
    ensures r.Ok? ==> |r.value| <= count && (|r.value| == count || pos + |r.value| == |s|)
  {
    if pos > |s| then Err(OutOfRange) else Ok(s[pos..pos + Min(count, |s| - pos)])
  }

  datatype TokenType =
    // Single-character tokens.
    | LEFT_PAREN | RIGHT_PAREN
    | LEFT_BRACE | RIGHT_BRACE
    | LEFT_BRACKET | RIGHT_BRACKET
    | COMMA | DOT | MINUS | PLUS
    | SEMICOLON | SLASH | STAR | PERCENTAGE
    | QUESTIONMARK | COLON | TILDA
    // One or two character tokens.
    | BITWISE_AND | BITWISE_OR | BITWISE_XOR
    | BANG | BANG_EQUAL
    | EQUAL | EQUAL_EQUAL | PLUS_EQUAL | MINUS_EQUAL | STAR_EQUAL | SLASH_EQUAL
    | PERCENTAGE_EQUAL | BITWISE_AND_EQUAL | BITWISE_OR_EQUAL | BITWISE_XOR_EQUAL
    | GREATER | GREATER_EQUAL
    | LESS | LESS_EQUAL
    | BITSHIFT_LEFT | BITSHIFT_RIGHT
    | INCREMENT | DECREMENT | DOUBLE_COLON
    // Literals.
    | IDENTIFIER | STRING | NUMBER
    // Keywords.
    | AND | OR
    | NIL | FALSE | TRUE
    | IF | ELSE
    | FUNC | RETURN
    | WHILE | FOR | CONTINUE | BREAK
    | CLASS | THIS | SUPER
    | SWITCH | CASE | DEFAULT
    | PRINT | VAR
    | IMPORT | ADDMACRO | REMOVEMACRO | EXPORT
    | WHITESPACE | NEWLINE | ERROR | TOKEN_EOF

  /** A source file: its name, its text and the offset at which each line starts. */
  class File {
    var name: string
    var sourceFile: string
    var lines: seq<nat>

    constructor (src: string, name: string)
      ensures sourceFile == src && this.name == name && lines == []
    {
      sourceFile := src;
      this.name := name;
      lines := [];
    }
  }

  /**
   * The file is shorter than 2^31 characters and its line offsets are below
   * 2^31, so converting them to int leaves them as they are.
   */
  predicate FileFits(f: File)
    reads f
  {
    |f.sourceFile| < TWO_31 && forall i :: 0 <= i < |f.lines| ==> f.lines[i] < TWO_31
  }

  /**
   * A run of characters in a source file: `length` characters starting
   * `column` characters after the start of line `line`.
   */
  datatype Span = Span(line: int, column: int, length: int, sourceFile: File?)
  {
    /** The fields fit their 32-bit ints and the file and line exist. */
    predicate Located()
      reads sourceFile
    {
      IsInt32(line) && IsInt32(column) && IsInt32(length) &&
      sourceFile != null && FileFits(sourceFile) && 0 <= line < |sourceFile.lines|
    }

    /** The offset of the span's first character, before any conversion. */
    function Start(): int
      reads sourceFile
      requires Located()
    {
      sourceFile.lines[line] + column
    }

    /**
     * The text of the span. A start before the beginning of the text or past
     * its end makes substr throw; a length that runs past the end, or a
     * negative one, takes the rest of the text.
     */
    function GetStr(): (r: Result<string, StrError>)
      reads sourceFile
      requires Located()
      ensures r.Err? <==> Start() < 0 || Start() > |sourceFile.sourceFile|
      ensures 0 <= Start() && 0 <= length && Start() + length <= |sourceFile.sourceFile| ==>
                r == Ok(sourceFile.sourceFile[Start()..Start() + length])
      ensures 0 <= Start() <= |sourceFile.sourceFile| && (length < 0 || Start() + length > |sourceFile.sourceFile|) ==>
                r == Ok(sourceFile.sourceFile[Start()..])
    {
      var start := ToInt32(sourceFile.lines[line] + column);
      var src := sourceFile.sourceFile;
      var r := Substr(src, ToSize(start), ToSize(length));
      assert 0 <= start <= |src| ==> ToSize(start) == start;
      assert length < 0 ==> ToSize(length) > |src|;
      assert r.Ok? && ToSize(start) + |r.value| == |src| ==> r.value == src[ToSize(start)..];
      r
    }

    /** Where the span's line ends: where the next line starts, or the end of the text on the last line. */
    function LineEnd(): int
      reads sourceFile
      requires Located()
    {
      if line + 1 >= |sourceFile.lines| then |sourceFile.sourceFile| else sourceFile.lines[line + 1]
    }

    /**
     * The span's line as substr takes it: from the line's start up to its end,
     * or to the end of the text when the end lies before the start (a
     * negative count) or past the text.
     */
    function RawLineEnd(): (e: int)
      reads sourceFile
      requires Located()
      ensures e <= |sourceFile.sourceFile|
    {
      var start, end := sourceFile.lines[line], LineEnd();
      if start <= end <= |sourceFile.sourceFile| then end else |sourceFile.sourceFile|
    }

    /**
     * getLine is defined: either the line starts past the end of the text, so
     * substr throws, or the line it takes is not empty, so its last character
     * can be inspected.
     */
    predicate LineDefined()
      reads sourceFile
    {
      Located() &&
      (sourceFile.lines[line] > |sourceFile.sourceFile| || sourceFile.lines[line] < RawLineEnd())
    }

    /** The whole line the span is on, without the one newline that ends it. */
    function GetLine(): (r: Result<string, StrError>)
      reads sourceFile
      requires LineDefined()
      ensures r.Err? <==> sourceFile.lines[line] > |sourceFile.sourceFile|
      ensures r.Ok? ==>
                var raw := sourceFile.sourceFile[sourceFile.lines[line]..RawLineEnd()];
                |raw| > 0 &&
                (raw[|raw| - 1] == '\n' ==> r.value + "\n" == raw) &&
                (raw[|raw| - 1] != '\n' ==> r.value == raw)
    {
      var start := sourceFile.lines[line];
      var end := LineEnd();
      match Substr(sourceFile.sourceFile, start, ToSize(end - start))
      case Err(e) => Err(e)
      case Ok(l) =>
        if l[|l| - 1] == '\n' then Ok(l[..|l| - 1]) else Ok(l)
    }
  }

  /** A span that points at no file, as a default-constructed one. */
  const EmptySpan := Span(0, 0, 0, null)

  /** On every line but the last, getLine is the text up to the next line's start, less its newline. */
  lemma GetLineInner(sp: Span)
    requires sp.LineDefined() && sp.line + 1 < |sp.sourceFile.lines|
    requires sp.sourceFile.lines[sp.line] < sp.sourceFile.lines[sp.line + 1] <= |sp.sourceFile.sourceFile|
    ensures var text := sp.sourceFile.sourceFile[sp.sourceFile.lines[sp.line]..sp.sourceFile.lines[sp.line + 1]];
            sp.GetLine().Ok? &&
            (sp.GetLine().value == text || sp.GetLine().value + "\n" == text)
  {
  }

  /** On the last line, getLine runs to the end of the text. */
  lemma GetLineLast(sp: Span)
    requires sp.LineDefined() && sp.line + 1 == |sp.sourceFile.lines|
    requires sp.sourceFile.lines[sp.line] <= |sp.sourceFile.sourceFile|
    ensures var text := sp.sourceFile.sourceFile[sp.sourceFile.lines[sp.line]..];
            sp.GetLine().Ok? &&
            (sp.GetLine().value == text || sp.GetLine().value + "\n" == text)
  {
  }

  /** getLine takes away at most one character, a newline at the end, and keeps the rest in order. */
  lemma GetLineTrimsOneNewline(sp: Span)
    requires sp.LineDefined() && sp.GetLine().Ok?
    ensures var raw := sp.sourceFile.sourceFile[sp.sourceFile.lines[sp.line]..sp.RawLineEnd()];
            var l := sp.GetLine().value;
            (|l| == |raw| || |l| == |raw| - 1) && l == raw[..|l|] &&
            (|l| == |raw| - 1 <==> raw[|raw| - 1] == '\n')
  {
  }

  /** A token: its type, the span it was read from and where it came from. */
  class Token {
    var tokenType: TokenType
    var str: Span
    /** Made by the compiler or a macro expansion rather than read from the text. */
    var isSynthetic: bool
    /** The token this one originated from. */
    var parentPtr: Token?
    /** The macro this one originated from. */
    var macroPtr: Token?

    constructor ()
      ensures tokenType == LEFT_PAREN && str == EmptySpan && !isSynthetic
      ensures parentPtr == null && macroPtr == null
    {
      tokenType := LEFT_PAREN;
      str := EmptySpan;
      isSynthetic := false;
      parentPtr := null;
      macroPtr := null;
    }

    /** A token read from the source text. */
    constructor FromSpan(str: Span, tokenType: TokenType)
      ensures this.tokenType == tokenType && this.str == str && !isSynthetic
      ensures parentPtr == null && macroPtr == null
    {
      this.tokenType := tokenType;
      this.str := str;
      isSynthetic := false;
      parentPtr := null;
      macroPtr := null;
    }

    /** A token with the same fields as t, as a copy-constructed one. */
    constructor Copy(t: Token)
      ensures tokenType == t.tokenType && str == t.str && isSynthetic == t.isSynthetic
      ensures parentPtr == t.parentPtr && macroPtr == t.macroPtr
    {
      tokenType := t.tokenType;
      str := t.str;
      isSynthetic := t.isSynthetic;
      parentPtr := t.parentPtr;
      macroPtr := t.macroPtr;
    }

    /**
     * A token that does not appear in the text, such as the `+` of `a = a + b`
     * made from `a += b`. Its parent is a new copy of parentToken.
     */
    constructor Synthetic(tokenType: TokenType, parentToken: Token)
      ensures this.tokenType == tokenType && isSynthetic && str == EmptySpan && macroPtr == null
      ensures parentPtr != null && fresh(parentPtr) && parentPtr != parentToken
      ensures parentPtr.tokenType == parentToken.tokenType && parentPtr.str == parentToken.str
      ensures parentPtr.isSynthetic == parentToken.isSynthetic
      ensures parentPtr.parentPtr == parentToken.parentPtr && parentPtr.macroPtr == parentToken.macroPtr
    {
      var copy := new Token.Copy(parentToken);
      this.tokenType := tokenType;
      str := EmptySpan;
      isSynthetic := true;
      parentPtr := copy;
      macroPtr := null;
    }

    /** What the token reads as: a fixed message for an error token, its text otherwise. */
    function GetLexeme(): (r: Result<string, StrError>)
      reads this, str.sourceFile
      requires tokenType == ERROR || str.Located()
      ensures tokenType == ERROR ==> r == Ok("Unexpected character.")
      ensures tokenType != ERROR ==> r == str.GetStr()
    {
      if tokenType == ERROR then Ok("Unexpected character.") else str.GetStr()
    }

    /** The token was expanded from a macro argument: parent and macro are recorded separately. */
    method SetOriginPointers(parent: Token?, macro: Token?)
      modifies this`parentPtr, this`macroPtr
      ensures parentPtr == parent && macroPtr == macro
    {
      parentPtr := parent;
      macroPtr := macro;
    }

    /** The token was expanded from a macro body: the macro is both its parent and its macro. */
    method SetOriginPointersFromMacro(macro: Token?)
      modifies this`parentPtr, this`macroPtr
      ensures parentPtr == macro && macroPtr == macro
    {
      parentPtr := macro;
      macroPtr := macro;
    }
  }

  /** A module of source code: its file, its tokens and the modules it depends on. */
  class CSLModule {
    var file: File?
    var tokens: seq<Token>
    var deps: seq<CSLModule>
    /** The module's dependency tree has been resolved; parsing it again before then is a cycle. */
    var resolvedDeps: bool
    /** Visited by the topological sort that runs once the dependencies are resolved. */
    var traversed: bool

    constructor (tokens: seq<Token>, file: File?)
      ensures this.tokens == tokens && this.file == file && deps == []
      ensures !resolvedDeps && !traversed
    {
      this.tokens := tokens;
      this.file := file;
      deps := [];
      resolvedDeps := false;
      traversed := false;
    }
  }
}
