/**
  The detail panel shown for a selected ship: its title, two fixed badges,
  description, one row per spec entry with a humanised label, its history,
  a close control and two action buttons that do nothing yet.
*/
module SpaceshipInfo {

  import opened Catalog

  /** The two status badges, the same for every record. */
  const Badges: seq<string> := ["Nave Espacial", "Activa"]

  datatype Row = Row(caption: string, value: string)

  /** The controls on the panel: the close button and the two action buttons. */
  datatype Control = CloseButton | ExploreButton | BlueprintsButton

  datatype Panel = Panel(
    title: string,
    badges: seq<string>,
    description: string,
    rows: seq<Row>,
    history: string,
    controls: seq<Control>)

  // ---------------------------------------------------------------------------
  // Label humanisation: key.replace(/([A-Z])/g, " $1").trim()
  // ---------------------------------------------------------------------------

  /** The character class [A-Z]: ASCII capitals only, so accented letters are not matched. */
  predicate IsUpper(c: char)
  {
    'A' <= c <= 'Z'
  }

  function CountUpper(s: string): nat
  {
    if s == [] then 0 else (if IsUpper(s[0]) then 1 else 0) + CountUpper(s[1..])
  }

  /** The `replace` step: a space in front of every ASCII capital, everything else kept. */
  function InsertSpaces(s: string): string
  {
    if s == [] then []
    else (if IsUpper(s[0]) then [' ', s[0]] else [s[0]]) + InsertSpaces(s[1..])
  }

  /** Where the i-th input character lands in InsertSpaces(s). */
  function Landing(s: string, i: nat): nat
    requires i < |s|
  {
    i + CountUpper(s[..i + 1])
  }

  /**
    The characters that String.prototype.trim removes: the ECMAScript
    WhiteSpace and LineTerminator code points.
  */
  predicate IsTrimmed(c: char)
  {
    // tab, line feed, vertical tab, form feed, carriage return, space
    ('\U{9}' <= c <= '\U{D}') || c == ' '
    // no-break space, ogham space mark, en quad .. hair space
    || c == '\U{A0}' || c == '\U{1680}' || ('\U{2000}' <= c <= '\U{200A}')
    // line and paragraph separators, narrow no-break space, medium mathematical space
    || c == '\U{2028}' || c == '\U{2029}' || c == '\U{202F}' || c == '\U{205F}'
    // ideographic space, byte order mark
    || c == '\U{3000}' || c == '\U{FEFF}'
  }

  /** No removable character at either end. */
  predicate TrimmedEnds(s: string)
  {
    s == [] || (!IsTrimmed(s[0]) && !IsTrimmed(s[|s| - 1]))
  }

  function TrimStart(s: string): string
  {
    if s != [] && IsTrimmed(s[0]) then TrimStart(s[1..]) else s
  }

  function TrimEnd(s: string): string
  {
    if s != [] && IsTrimmed(s[|s| - 1]) then TrimEnd(s[..|s| - 1]) else s
  }

  /** String.prototype.trim. */
  function Trim(s: string): string
  {
    TrimEnd(TrimStart(s))
  }

  /** The spec label shown in the panel. */
  function Humanize(key: string): string
  {
    Trim(InsertSpaces(key))
  }

  // Properties of the insertion step

  /** The insertion step lengthens the key by exactly its number of capitals. */
  lemma {:induction false} InsertSpacesLength(s: string)
    ensures |InsertSpaces(s)| == |s| + CountUpper(s)
  {
    if s != [] {
      InsertSpacesLength(s[1..]);
    }
  }

  /** Every input character appears at its landing index, and a capital is preceded there by a space. */
  lemma {:induction false} InsertSpacesAt(s: string, i: nat)
    requires i < |s|
    ensures Landing(s, i) < |InsertSpaces(s)|
    ensures InsertSpaces(s)[Landing(s, i)] == s[i]
    ensures IsUpper(s[i]) ==> InsertSpaces(s)[Landing(s, i) - 1] == ' '
  {
    var head := if IsUpper(s[0]) then [' ', s[0]] else [s[0]];
    assert InsertSpaces(s) == head + InsertSpaces(s[1..]);
    InsertSpacesLength(s[1..]);
    if i == 0 {
      assert s[..1][1..] == [];
      assert CountUpper(s[..1]) == |head| - 1;
    } else {
      InsertSpacesAt(s[1..], i - 1);
      assert s[..i + 1][1..] == s[1..][..i];
      assert Landing(s, i) == |head| + Landing(s[1..], i - 1);
    }
  }

  /** Consecutive input characters land one apart, or two apart when the later one is a capital. */
  lemma LandingGap(s: string, i: nat)
    requires 0 < i < |s|
    ensures Landing(s, i) == Landing(s, i - 1) + (if IsUpper(s[i]) then 2 else 1)
  {
    CountUpperAppend(s[..i], s[i]);
    assert s[..i + 1] == s[..i] + [s[i]];
  }

  lemma {:induction false} CountUpperAppend(s: string, c: char)
    ensures CountUpper(s + [c]) == CountUpper(s) + (if IsUpper(c) then 1 else 0)
  {
    if s != [] {
      assert (s + [c])[1..] == s[1..] + [c];
      CountUpperAppend(s[1..], c);
    }
  }

  /** The replacement is global and character by character: it distributes over concatenation. */
  lemma {:induction false} InsertSpacesAppend(a: string, b: string)
    ensures InsertSpaces(a + b) == InsertSpaces(a) + InsertSpaces(b)
  {
    if a != [] {
      assert (a + b)[1..] == a[1..] + b;
      InsertSpacesAppend(a[1..], b);
    } else {
      assert a + b == b;
    }
  }

  /** A key without capitals is left as it is by the insertion step (accented letters included). */
  lemma {:induction false} NoCapitalsUnchanged(s: string)
    requires forall i :: 0 <= i < |s| ==> !IsUpper(s[i])
    ensures InsertSpaces(s) == s
  {
    if s != [] {
      NoCapitalsUnchanged(s[1..]);
    }
  }

  /** The inserted-space form ends with the key's last character. */
  lemma InsertSpacesLast(key: string)
    requires key != []
    ensures |InsertSpaces(key)| > 0 && InsertSpaces(key)[|InsertSpaces(key)| - 1] == key[|key| - 1]
  {
    InsertSpacesAt(key, |key| - 1);
    InsertSpacesLength(key);
    assert key[..|key|] == key;
  }

  /** The inserted-space form starts with the key's first character, or with a space and then it. */
  lemma InsertSpacesFirst(key: string)
    requires key != []
    ensures var t := InsertSpaces(key);
      if IsUpper(key[0]) then |t| >= 2 && t[0] == ' ' && t[1] == key[0] else |t| > 0 && t[0] == key[0]
  {
    var head := if IsUpper(key[0]) then [' ', key[0]] else [key[0]];
    assert InsertSpaces(key) == head + InsertSpaces(key[1..]);
  }

  // Properties of trimming

  /** TrimStart drops the longest removable prefix. */
  lemma {:induction false} TrimStartDrops(s: string)
    ensures var r := TrimStart(s);
      |r| <= |s| && r == s[|s| - |r|..]
      && (forall i :: 0 <= i < |s| - |r| ==> IsTrimmed(s[i]))
      && (r == [] || !IsTrimmed(r[0]))
  {
    if s != [] && IsTrimmed(s[0]) {
      TrimStartDrops(s[1..]);
      var r := TrimStart(s[1..]);
      assert TrimStart(s) == r;
      assert s[1..][|s| - 1 - |r|..] == s[|s| - |r|..];
    }
  }

  /** TrimEnd drops the longest removable suffix. */
  lemma {:induction false} TrimEndDrops(s: string)
    ensures var r := TrimEnd(s);
      |r| <= |s| && r == s[..|r|]
      && (forall i :: |r| <= i < |s| ==> IsTrimmed(s[i]))
      && (r == [] || !IsTrimmed(r[|r| - 1]))
  {
    if s != [] && IsTrimmed(s[|s| - 1]) {
      TrimEndDrops(s[..|s| - 1]);
    }
  }

  /** Whatever trim returns has no removable character at either end. */
  lemma TrimEnds(s: string)
    ensures TrimmedEnds(Trim(s))
  {
    var m := TrimStart(s);
    TrimStartDrops(s);
    TrimEndDrops(m);
  }

  /**
    Trim keeps exactly the contiguous middle of `s` that lies between a
    removable prefix (of length `a`) and a removable suffix.
  */
  lemma TrimKeepsMiddle(s: string, a: nat)
    requires a == |s| - |TrimStart(s)|
    ensures a + |Trim(s)| <= |s| && Trim(s) == s[a..a + |Trim(s)|]
    ensures forall i :: 0 <= i < a ==> IsTrimmed(s[i])
    ensures forall i :: a + |Trim(s)| <= i < |s| ==> IsTrimmed(s[i])
  {
    var m := TrimStart(s);
    TrimStartDrops(s);
    var r := TrimEnd(m);
    TrimEndDrops(m);
    forall i | a + |r| <= i < |s|
      ensures IsTrimmed(s[i])
    {
      assert s[i] == m[i - a];
    }
  }

  lemma TrimStartKeeps(s: string)
    requires s != [] && !IsTrimmed(s[0])
    ensures TrimStart(s) == s
  {
  }

  lemma TrimEndKeeps(s: string)
    requires s != [] && !IsTrimmed(s[|s| - 1])
    ensures TrimEnd(s) == s
  {
  }

  lemma TrimStartSpace(s: string)
    requires s != [] && s[0] == ' '
    ensures TrimStart(s) == TrimStart(s[1..])
  {
  }

  /** Trimming a string that has nothing removable at either end leaves it as it is. */
  lemma TrimKeepsTrimmed(s: string)
    requires TrimmedEnds(s)
    ensures Trim(s) == s
  {
    if s != [] {
      TrimStartKeeps(s);
      TrimEndKeeps(s);
    }
  }

  // Properties of the label

  /** A label never starts or ends with whitespace. */
  lemma HumanizeEnds(key: string)
    ensures TrimmedEnds(Humanize(key))
  {
    TrimEnds(InsertSpaces(key));
  }

  /**
    For a key without whitespace, trimming removes exactly the space inserted
    before a leading capital and nothing else.
  */
  lemma HumanizeKey(key: string)
    requires forall i :: 0 <= i < |key| ==> !IsTrimmed(key[i])
    ensures Humanize(key) == if key != [] && IsUpper(key[0]) then InsertSpaces(key)[1..] else InsertSpaces(key)
  {
    if key != [] {
      var t := InsertSpaces(key);
      InsertSpacesFirst(key);
      InsertSpacesLast(key);
      var u := if IsUpper(key[0]) then t[1..] else t;
      TrimAround(t, u, key[0], key[|key| - 1]);
    }
  }

  lemma TrimAround(t: string, u: string, first: char, last: char)
    requires !IsTrimmed(first) && !IsTrimmed(last)
    requires t != [] && t[|t| - 1] == last
    requires (t[0] == ' ' && |t| >= 2 && t[1] == first && u == t[1..]) || (t[0] == first && u == t)
    ensures Trim(t) == u
  {
    TrimStartKeeps(u);
    if u != t {
      TrimStartSpace(t);
    }
    TrimEndKeeps(u);
  }

  /** A key that starts with a capital gets no leading space: the label starts with that capital. */
  lemma LeadingCapital(key: string)
    requires key != [] && IsUpper(key[0])
    ensures Humanize(key) != [] && Humanize(key)[0] == key[0]
  {
    var t := InsertSpaces(key);
    InsertSpacesFirst(key);
    TrimStartSpace(t);
    TrimStartKeeps(t[1..]);
    assert TrimStart(t) == t[1..];
    TrimEndDrops(t[1..]);
    var r := TrimEnd(t[1..]);
    assert !IsTrimmed(t[1..][0]);
    assert r != [];
    assert r[0] == t[1..][0];
  }

  /** A key with no capitals and nothing removable at either end is its own label. */
  lemma PlainKey(key: string)
    requires forall i :: 0 <= i < |key| ==> !IsUpper(key[i])
    requires TrimmedEnds(key)
    ensures Humanize(key) == key
  {
    NoCapitalsUnchanged(key);
    TrimKeepsTrimmed(key);
  }

  lemma HumanizePlainKey(key: string)
    requires key == "velocidad" || key == "tripulación"
    ensures Humanize(key) == key
  {
    assert !IsTrimmed(key[0]) && !IsTrimmed(key[|key| - 1]);
    PlainKey(key);
  }

  // camelCase keys

  /** A word of a camelCase key after the first: one ASCII capital, then no capitals; no whitespace. */
  predicate CapitalWord(w: string)
  {
    w != [] && IsUpper(w[0])
    && (forall i :: 1 <= i < |w| ==> !IsUpper(w[i]))
    && (forall i :: 0 <= i < |w| ==> !IsTrimmed(w[i]))
  }

  /** The words written together, as in the key. */
  function Joined(words: seq<string>): string
  {
    if words == [] then [] else words[0] + Joined(words[1..])
  }

  /** The words each preceded by a space, as in the label. */
  function Spaced(words: seq<string>): string
  {
    if words == [] then [] else [' '] + words[0] + Spaced(words[1..])
  }

  lemma CapitalWordSpaced(w: string)
    requires CapitalWord(w)
    ensures InsertSpaces(w) == [' '] + w
  {
    NoCapitalsUnchanged(w[1..]);
    assert InsertSpaces(w) == [' ', w[0]] + InsertSpaces(w[1..]);
    assert w == [w[0]] + w[1..];
  }

  lemma {:induction false} InsertSpacesWords(words: seq<string>)
    requires forall k :: 0 <= k < |words| ==> CapitalWord(words[k])
    ensures InsertSpaces(Joined(words)) == Spaced(words)
  {
    if words != [] {
      InsertSpacesWords(words[1..]);
      InsertSpacesAppend(words[0], Joined(words[1..]));
      CapitalWordSpaced(words[0]);
    }
  }

  lemma {:induction false} SpacedLast(words: seq<string>)
    requires words != [] && forall k :: 0 <= k < |words| ==> CapitalWord(words[k])
    ensures var t := Spaced(words); t != [] && !IsTrimmed(t[|t| - 1])
  {
    if |words| == 1 {
      assert Spaced(words) == [' '] + words[0];
    } else {
      SpacedLast(words[1..]);
    }
  }

  /**
    A camelCase key — a first word without capitals followed by capitalised
    words — is shown as its words separated by single spaces.
  */
  lemma CamelCaseLabel(head: string, words: seq<string>)
    requires head != []
    requires forall i :: 0 <= i < |head| ==> !IsUpper(head[i]) && !IsTrimmed(head[i])
    requires forall k :: 0 <= k < |words| ==> CapitalWord(words[k])
    ensures Humanize(head + Joined(words)) == head + Spaced(words)
  {
    InsertSpacesAppend(head, Joined(words));
    NoCapitalsUnchanged(head);
    InsertSpacesWords(words);
    var t := head + Spaced(words);
    if words != [] {
      SpacedLast(words);
    }
    assert TrimmedEnds(t);
    TrimKeepsTrimmed(t);
  }

  /** One capital: "topSpeed" is shown as "top Speed". */
  lemma HumanizeCamelCase(key: string)
    requires key == "topSpeed"
    ensures Humanize(key) == "top Speed"
  {
    var head, w := key[..3], key[3..];
    assert head == "top";
    assert w == "Speed";
    CamelCaseLabel(head, [w]);
    assert [w][1..] == [];
    assert Joined([w]) == w + Joined([]) == w;
    assert Spaced([w]) == [' '] + w + Spaced([]) == [' '] + w;
    assert key == head + Joined([w]);
  }

  /** Several capitals: "maxWarpSpeed" is shown as "max Warp Speed". */
  lemma HumanizeTwoCapitals(key: string)
    requires key == "maxWarpSpeed"
    ensures Humanize(key) == "max Warp Speed"
  {
    var head, w1, w2 := key[..3], key[3..7], key[7..];
    var words := [w1, w2];
    assert head == "max";
    assert w1 == "Warp";
    assert w2 == "Speed";
    CamelCaseLabel(head, words);
    assert words[1..] == [w2] && [w2][1..] == [];
    assert Joined([w2]) == w2 + Joined([]) == w2;
    assert Joined(words) == w1 + w2;
    assert Spaced([w2]) == [' '] + w2 + Spaced([]) == [' '] + w2;
    assert Spaced(words) == [' '] + w1 + [' '] + w2;
    assert key == head + Joined(words);
  }

  // ---------------------------------------------------------------------------
  // The panel
  // ---------------------------------------------------------------------------

  /** The spec grid: Object.entries(specs).map(...) — one row per entry, in entry order. */
  function SpecRows(specs: seq<SpecEntry>): (rows: seq<Row>)
    ensures |rows| == |specs|
    ensures forall i :: 0 <= i < |specs| ==> rows[i] == Row(Humanize(specs[i].key), specs[i].value)
  {
    if specs == [] then [] else [Row(Humanize(specs[0].key), specs[0].value)] + SpecRows(specs[1..])
  }

  function Render(ship: SpaceshipRecord): (panel: Panel)
    ensures panel.title == ship.name && panel.description == ship.description && panel.history == ship.history
    ensures panel.badges == Badges
    ensures panel.rows == SpecRows(ship.specs)
    ensures panel.controls == [CloseButton, ExploreButton, BlueprintsButton]
  {
    Panel(ship.name, Badges, ship.description, SpecRows(ship.specs), ship.history,
          [CloseButton, ExploreButton, BlueprintsButton])
  }

  /** Whether pressing a control invokes the panel's onClose callback; the action buttons have no handler. */
  function InvokesClose(c: Control): (closes: bool)
    ensures closes <==> c == CloseButton
  {
    c.CloseButton?
  }

  /** The badges do not depend on the record. */
  lemma BadgesFixed(a: SpaceshipRecord, b: SpaceshipRecord)
    ensures Render(a).badges == Render(b).badges == ["Nave Espacial", "Activa"]
  {
  }
}
