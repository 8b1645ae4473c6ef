/** `WorkerDescriptionParser`: turns a comma-separated list of class names
    into the classes it names. Constant lookup is a partial map from a
    namespace and a constant name to the constant it holds, standing for
    `const_get`; a missing entry is the `NameError` it raises. */
module WorkerDescriptionParser {
  import opened Strings

  /** What `constantize` produced: a class, or the name of the constant
      that raised `NameError`. */
  datatype Lookup<C> = Found(value: C) | Missing(segment: string)

  /** The log line written for a name that does not resolve. */
  function MissingWarning(segment: string): string {
    "Missing worker class: " + segment
  }

  /** `segments.reduce(from) { |a, e| a.const_get(e) }`: each segment is
      looked up in the namespace the previous one produced; the first one
      that is missing stops the reduction. */
  function Resolve<C(==)>(segments: seq<string>, from: C, table: map<(C, string), C>): (r: Lookup<C>)
    ensures segments == [] ==> r == Found(from)
    ensures r.Missing? ==> r.segment in segments
    decreases |segments|
  {
    if segments == [] then Found(from)
    else if (from, segments[0]) in table then Resolve(segments[1..], table[(from, segments[0])], table)
    else Missing(segments[0])
  }

  /** `constantize(name)`: split at `::` and resolve from the root
      namespace. */
  function Constantize<C(==)>(name: string, root: C, table: map<(C, string), C>): Lookup<C> {
    Resolve(Split(name, "::"), root, table)
  }

  /** `description.split(',').map(&:strip)`: the stripped fields. */
  function Fields(description: string): (fs: seq<string>)
    ensures |fs| == |Split(description, ",")|
    ensures forall i :: 0 <= i < |fs| ==> fs[i] == Strip(Split(description, ",")[i])
  {
    seq(|Split(description, ",")|, i requires 0 <= i < |Split(description, ",")| => Strip(Split(description, ",")[i]))
  }

  datatype ParseResult<C> = ParseResult(classes: seq<C>, warnings: seq<string>)

  /** `.map { |string| constantize string }.compact` over the fields, with
      the warnings logged on the way, in field order. */
  function ParseFields<C(==)>(fields: seq<string>, root: C, table: map<(C, string), C>): (r: ParseResult<C>)
    ensures |r.classes| + |r.warnings| == |fields|
    decreases |fields|
  {
    if fields == [] then ParseResult([], [])
    else
      var rest := ParseFields(fields[1..], root, table);
      match Constantize(fields[0], root, table)
      case Found(c) => ParseResult([c] + rest.classes, rest.warnings)
      case Missing(e) => ParseResult(rest.classes, [MissingWarning(e)] + rest.warnings)
  }

  /** `WorkerDescriptionParser.parse(description)`. */
  function Parse<C(==)>(description: string, root: C, table: map<(C, string), C>): (r: ParseResult<C>)
    ensures |r.classes| <= |Fields(description)|
    ensures |r.classes| + |r.warnings| == |Fields(description)|
  {
    ParseFields(Fields(description), root, table)
  }

  // ---------------------------------------------------------------------
  // Properties

  /** Every field is looked up without its surrounding blanks. */
  lemma FieldsAreStripped(description: string)
    ensures forall i :: 0 <= i < |Fields(description)| ==>
      var f := Fields(description)[i];
      f == [] || (!IsSpace(f[0]) && !IsSpace(f[|f| - 1]))
  {
  }

  /** The classes are the resolved fields in field order, the warnings the
      unresolved ones in field order: parsing two lists of fields one after
      the other gives the two results one after the other. */
  lemma {:induction false} ParseFieldsConcat<C>(f: seq<string>, g: seq<string>, root: C, table: map<(C, string), C>)
    ensures ParseFields(f + g, root, table).classes
         == ParseFields(f, root, table).classes + ParseFields(g, root, table).classes
    ensures ParseFields(f + g, root, table).warnings
         == ParseFields(f, root, table).warnings + ParseFields(g, root, table).warnings
    decreases |f|
  {
    if f == [] {
      assert f + g == g;
    } else {
      assert (f + g)[1..] == f[1..] + g;
      ParseFieldsConcat(f[1..], g, root, table);
      var a := ParseFields(f[1..], root, table);
      var b := ParseFields(g, root, table);
      match Constantize(f[0], root, table)
      case Found(c) =>
        AppendAssoc([c], a.classes, b.classes);
      case Missing(e) =>
        AppendAssoc([MissingWarning(e)], a.warnings, b.warnings);
    }
  }

  /** A single field yields its class, or nothing and one warning. */
  lemma ParseOneField<C>(field: string, root: C, table: map<(C, string), C>)
    ensures Constantize(field, root, table).Found? ==>
      ParseFields([field], root, table) == ParseResult([Constantize(field, root, table).value], [])
    ensures Constantize(field, root, table).Missing? ==>
      ParseFields([field], root, table) == ParseResult([], [MissingWarning(Constantize(field, root, table).segment)])
  {
    assert [field][1..] == [];
  }

  /** When every field resolves, the classes are exactly the resolved
      fields, position by position, and nothing is logged. */
  lemma {:induction false} ParseAllFound<C>(fields: seq<string>, root: C, table: map<(C, string), C>)
    requires forall i :: 0 <= i < |fields| ==> Constantize(fields[i], root, table).Found?
    ensures |ParseFields(fields, root, table).classes| == |fields|
    ensures ParseFields(fields, root, table).warnings == []
    ensures forall i :: 0 <= i < |fields| ==>
      ParseFields(fields, root, table).classes[i] == Constantize(fields[i], root, table).value
    decreases |fields|
  {
    if fields != [] {
      assert forall i :: 0 <= i < |fields[1..]| ==> fields[1..][i] == fields[i + 1];
      ParseAllFound(fields[1..], root, table);
    }
  }

  /** A name resolves through a concatenation of segment lists exactly when
      the first list resolves and the second resolves from where the first
      ends: lookup goes segment by segment from the root, and fails as soon
      as one segment is missing. */
  lemma {:induction false} ResolveConcat<C>(s: seq<string>, t: seq<string>, from: C, table: map<(C, string), C>)
    ensures Resolve(s + t, from, table) ==
      match Resolve(s, from, table)
      case Found(c) => Resolve(t, c, table)
      case Missing(e) => Missing(e)
    decreases |s|
  {
    if s == [] {
      assert s + t == t;
    } else {
      assert (s + t)[1..] == s[1..] + t;
      if (from, s[0]) in table {
        ResolveConcat(s[1..], t, table[(from, s[0])], table);
      }
    }
  }

  /** A segment missing from the namespace it is looked up in is the one
      the warning names. */
  lemma ResolveFirstMissing<C>(s: seq<string>, t: seq<string>, from: C, c: C, table: map<(C, string), C>)
    requires Resolve(s, from, table) == Found(c)
    requires t != [] && (c, t[0]) !in table
    ensures Resolve(s + t, from, table) == Missing(t[0])
  {
    ResolveConcat(s, t, from, table);
  }

  /** An empty name — an empty or blank field — splits into no segments,
      and `reduce` then returns the root namespace itself. */
  lemma EmptyNameIsRoot<C>(root: C, table: map<(C, string), C>)
    ensures Constantize("", root, table) == Found(root)
  {
    assert Pieces("", "::") == [""];
  }

  // ---------------------------------------------------------------------
  // The example in the source's documentation

  /** Splitting at a separator character that `a` does not contain puts
      `a` first. */
  lemma {:induction false} PiecesAfterFirst(a: string, c: char, b: string)
    requires NoChar(a, c)
    ensures Pieces(a + [c] + b, [c]) == [a] + Pieces(b, [c])
    decreases |a|
  {
    var s := a + [c] + b;
    if a == [] {
      assert s == [c] + b;
      assert s[..1] == [c] && s[1..] == b;
    } else {
      assert s[..1][0] == a[0] != c;
      assert s[1..] == a[1..] + [c] + b;
      PiecesAfterFirst(a[1..], c, b);
      assert [a[0]] + a[1..] == a;
    }
  }

  lemma TwoFields(a: string, b: string)
    requires NoChar(a, ',') && NoChar(b, ',') && b != []
    ensures Split(a + "," + b, ",") == [a, b]
  {
    PiecesAfterFirst(a, ',', b);
    PiecesWithoutSeparator(b, ',');
    assert Pieces(a + "," + b, ",") == [a, b];
  }

  /** A plain class name: no comma, no colon, no blank at either end. */
  predicate PlainName(name: string) {
    name != [] && NoChar(name, ',') && NoChar(name, ':') && !IsSpace(name[0]) && !IsSpace(name[|name| - 1])
  }

  lemma PlainNameField(a: string)
    requires PlainName(a)
    ensures Strip(a) == a && Split(a, "::") == [a]
  {
    PiecesNoDoubleColon(a);
  }

  /** Two plain names that name classes in the root namespace parse to
      those two classes, in the order given, with nothing logged. */
  lemma ParseTwoNames<C>(a: string, b: string, root: C, first: C, second: C, table: map<(C, string), C>)
    requires PlainName(a) && PlainName(b)
    requires (root, a) in table && table[(root, a)] == first
    requires (root, b) in table && table[(root, b)] == second
    ensures Parse(a + "," + b, root, table) == ParseResult([first, second], [])
  {
    TwoFields(a, b);
    PlainNameField(a);
    PlainNameField(b);
    assert Fields(a + "," + b) == [a, b];
    assert [a][1..] == [] && [b][1..] == [];
    ParseAllFound([a, b], root, table);
  }

  /** `parse('FirstWorker,SecondWorker')` returns `[FirstWorker,
      SecondWorker]`. */
  lemma ExampleParse<C>(a: string, b: string, root: C, first: C, second: C, table: map<(C, string), C>)
    requires a == "FirstWorker" && b == "SecondWorker"
    requires (root, a) in table && table[(root, a)] == first
    requires (root, b) in table && table[(root, b)] == second
    ensures Parse(a + "," + b, root, table) == ParseResult([first, second], [])
  {
    assert PlainName(a) && PlainName(b);
    ParseTwoNames(a, b, root, first, second, table);
  }

  /** A string without `:` is one piece when split at `::`. */
  lemma {:induction false} PiecesNoDoubleColon(s: string)
    requires NoChar(s, ':')
    ensures Pieces(s, "::") == [s]
    decreases |s|
  {
    if |s| >= 2 {
      assert s[..2][0] == s[0] != ':';
      PiecesNoDoubleColon(s[1..]);
      assert [s[0]] + s[1..] == s;
    }
  }
}
