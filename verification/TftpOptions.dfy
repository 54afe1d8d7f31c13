/**
Requests and options on the wire (`parse_request` and the OACK of tftp_server.py, RFC 1350 and
RFC 2347): strings that end in NUL, options as name and value by turns.
*/
module TftpOptions {
  import opened Wrappers

  /** split(NUL): always at least one part. */
  function Split(s: string): (parts: seq<string>)
    ensures |parts| >= 1
  {
    if s == "" then [""]
    else if s[0] == '\0' then [""] + Split(s[1..])
    else var rest := Split(s[1..]); [[s[0]] + rest[0]] + rest[1..]
  }

  function LowerChar(c: char): char {
    if 'A' <= c <= 'Z' then c + ('a' - 'A') else c
  }

  /** lower(), for ASCII */
  function Lower(s: string): string {
    if s == "" then "" else [LowerChar(s[0])] + Lower(s[1..])
  }

  datatype Request = Request(filename: string, mode: string, options: map<string, string>)

  type Options = seq<(string, string)>

  function Encode(options: Options): string {
    if options == [] then "" else options[0].0 + "\0" + options[0].1 + "\0" + Encode(options[1..])
  }

  /** The pairs of a part list, as the parser pairs them: an empty name is skipped, a name
      without a value too, and a name that comes again replaces its value. */
  function Pairs(parts: seq<string>): map<string, string>
    decreases |parts|
  {
    if |parts| < 2 then map[]
    else if |parts| % 2 == 1 then Pairs(parts[..|parts| - 1])
    else WithPair(Pairs(parts[..|parts| - 2]), parts[|parts| - 2], parts[|parts| - 1])
  }

  function WithPair(m: map<string, string>, name: string, value: string): map<string, string> {
    if name == "" then m else m[Lower(name) := value]
  }

  /** The pairing loop. */
  method PairUp(rest: seq<string>) returns (opts: map<string, string>)
    ensures opts == Pairs(rest)
  {
    opts := map[];
    var i := 0;
    while i < |rest| - 1
      invariant 0 <= i <= |rest| && i % 2 == 0
      invariant opts == Pairs(rest[..i])
    {
      assert rest[..i + 2][..i] == rest[..i];
      if rest[i] != "" {
        opts := opts[Lower(rest[i]) := rest[i + 1]];
      }
      i := i + 2;
    }
    if i == |rest| {
      assert rest[..i] == rest;
    } else {
      assert i == |rest| - 1 && (i > 0 ==> rest[..|rest| - 1] == rest[..i]);
    }
  }

  /** A request packet without its opcode. There is none exactly without a NUL; the file name is
      the body up to the first; nothing has a NUL in it, and the mode and every option's name -
      which is never empty - is in lower case. */
  method ParseRequest(body: string) returns (r: Option<Request>)
    ensures r == Parsed(body)
    ensures r.None? <==> NulFree(body)
    ensures r.Some? ==>
              && r.value.filename + "\0" <= body && NulFree(r.value.filename)
              && NulFree(r.value.mode) && IsLower(r.value.mode) && Clean(r.value.options)
  {
    SplitParts(body);
    PartsAreNulFree(body);
    if |Split(body)| >= 2 {
      LowerIs(Split(body)[1]);
      PairsAreClean(Split(body)[2..]);
    }
    var parts := Split(body);
    if |parts| < 2 {
      return None;
    }
    var opts := PairUp(parts[2..]);
    return Some(Request(parts[0], Lower(parts[1]), opts));
  }

  function Parsed(body: string): Option<Request> {
    var parts := Split(body);
    if |parts| < 2 then None else Some(Request(parts[0], Lower(parts[1]), Pairs(parts[2..])))
  }

  predicate Clean(options: map<string, string>) {
    forall k <- options :: k != "" && IsLower(k) && NulFree(k) && NulFree(options[k])
  }

  lemma {:induction false} PartsAreNulFree(s: string)
    ensures forall p <- Split(s) :: NulFree(p)
  {
    if s != "" {
      var rest := Split(s[1..]);
      PartsAreNulFree(s[1..]);
      assert rest[0] in rest && forall p <- rest[1..] :: p in rest;
    }
  }

  lemma {:induction false} SplitParts(s: string)
    ensures |Split(s)| == 1 <==> NulFree(s)
    ensures |Split(s)| >= 2 ==> Split(s)[0] + "\0" <= s
  {
    if s != "" {
      var rest := Split(s[1..]);
      SplitParts(s[1..]);
      assert s == [s[0]] + s[1..];
      assert '\0' in s <==> s[0] == '\0' || '\0' in s[1..];
      if s[0] == '\0' {
        assert s[0] in s && Split(s)[0] + "\0" == s[..1];
      } else if |rest| >= 2 {
        assert [s[0]] + (rest[0] + "\0") <= [s[0]] + s[1..];
        assert Split(s)[0] + "\0" == [s[0]] + (rest[0] + "\0");
      }
    }
  }

  lemma {:induction false} LowerIs(s: string)
    ensures IsLower(Lower(s)) && (NulFree(s) ==> NulFree(Lower(s))) && (s != "" ==> Lower(s) != "")
  {
    if s != "" {
      LowerIs(s[1..]);
      assert forall c <- s[1..] :: c in s;
    }
  }

  lemma {:induction false} PairsAreClean(parts: seq<string>)
    requires forall p <- parts :: NulFree(p)
    ensures Clean(Pairs(parts))
    decreases |parts|
  {
    if |parts| >= 2 {
      if |parts| % 2 == 1 {
        PairsAreClean(parts[..|parts| - 1]);
      } else {
        PairsAreClean(parts[..|parts| - 2]);
        LowerIs(parts[|parts| - 2]);
      }
    }
  }

  // ---- the round trip --------------------------------------------------------------------

  predicate NulFree(s: string) {
    '\0' !in s
  }

  predicate IsLower(s: string) {
    forall c <- s :: !('A' <= c <= 'Z')
  }

  /** Distinct, non-empty, lower-case names; nothing with a NUL in it. */
  predicate Proper(options: Options) {
    && (forall o <- options :: o.0 != "" && IsLower(o.0) && NulFree(o.0) && NulFree(o.1))
    && (forall i, j | 0 <= i < j < |options| :: options[i].0 != options[j].0)
  }

  /** The map has exactly these options. */
  ghost predicate Describes(m: map<string, string>, options: Options) {
    && (forall o <- options :: o.0 in m && m[o.0] == o.1)
    && (forall k <- m :: exists o <- options :: o.0 == k)
  }

  lemma {:induction false} SplitFirst(s: string, rest: string)
    requires NulFree(s)
    ensures Split(s + "\0" + rest) == [s] + Split(rest)
  {
    var whole := s + "\0" + rest;
    if s == "" {
      assert whole[1..] == rest;
    } else {
      assert whole[1..] == s[1..] + "\0" + rest && whole[0] == s[0];
      assert s[0] in s && forall c <- s[1..] :: c in s;
      SplitFirst(s[1..], rest);
      var r := Split(whole[1..]);
      assert r[0] == s[1..] && r[1..] == Split(rest);
      assert [s[0]] + s[1..] == s;
    }
  }

  lemma {:induction false} LowerKeeps(s: string)
    requires IsLower(s)
    ensures Lower(s) == s
  {
    if s != "" {
      assert s[0] in s && forall c <- s[1..] :: c in s;
      LowerKeeps(s[1..]);
      assert s == [s[0]] + s[1..];
    }
  }

  /** Names and values by turns. */
  function Flat(options: Options): seq<string> {
    if options == [] then [] else Flat(options[..|options| - 1]) + [options[|options| - 1].0, options[|options| - 1].1]
  }

  lemma {:induction false} FlatFromFront(options: Options)
    requires options != []
    ensures Flat(options) == [options[0].0, options[0].1] + Flat(options[1..])
  {
    if |options| > 1 {
      var front := options[..|options| - 1];
      FlatFromFront(front);
      assert front[1..] == options[1..][..|options| - 2];
    } else {
      assert options[..0] == [] && options[1..] == [];
    }
  }

  lemma {:induction false} SplitEncoded(options: Options)
    requires forall o <- options :: NulFree(o.0) && NulFree(o.1)
    ensures Split(Encode(options)) == Flat(options) + [""]
  {
    if options != [] {
      var (name, value) := options[0];
      assert options[0] in options;
      assert Encode(options) == name + "\0" + (value + "\0" + Encode(options[1..]));
      SplitFirst(name, value + "\0" + Encode(options[1..]));
      SplitFirst(value, Encode(options[1..]));
      SplitEncoded(options[1..]);
      FlatFromFront(options);
    }
  }

  lemma {:induction false} FlatLength(options: Options)
    ensures |Flat(options)| == 2 * |options|
  {
    if options != [] {
      FlatLength(options[..|options| - 1]);
    }
  }

  lemma PairsLast(parts: seq<string>, name: string, value: string)
    requires |parts| % 2 == 0 && name != ""
    ensures Pairs(parts + [name, value]) == Pairs(parts)[Lower(name) := value]
  {
    EvenPairs(parts, name, value, parts + [name, value]);
  }

  lemma EvenPairs(parts: seq<string>, name: string, value: string, all: seq<string>)
    requires |parts| % 2 == 0 && all == parts + [name, value]
    ensures Pairs(all) == WithPair(Pairs(parts), name, value)
  {
    assert all[..|all| - 2] == parts;
  }

  lemma ProperFront(options: Options)
    requires Proper(options) && options != []
    ensures Proper(options[..|options| - 1])
    ensures options[|options| - 1].0 != "" && IsLower(options[|options| - 1].0)
  {
    var front, last := options[..|options| - 1], options[|options| - 1];
    assert last in options && forall o <- front :: o in options;
  }

  lemma {:induction false} PairsOfFlat(options: Options)
    requires Proper(options)
    ensures Describes(Pairs(Flat(options)), options)
  {
    if options != [] {
      var front, last := options[..|options| - 1], options[|options| - 1];
      ProperFront(options);
      PairsOfFlat(front);
      FlatLength(front);
      LowerKeeps(last.0);
      PairsLast(Flat(front), last.0, last.1);
      OneMore(Pairs(Flat(front)), options);
    }
  }

  lemma OneMore(m: map<string, string>, options: Options)
    requires Proper(options) && options != [] && Describes(m, options[..|options| - 1])
    ensures var last := options[|options| - 1]; Describes(m[last.0 := last.1], options)
  {
    var front, last := options[..|options| - 1], options[|options| - 1];
    forall o <- options
      ensures o == last || (o in front && o.0 != last.0)
    {
    }
    assert last in options && forall o <- front :: o in options;
  }

  lemma OddPairs(parts: seq<string>)
    requires |parts| % 2 == 1
    ensures Pairs(parts) == Pairs(parts[..|parts| - 1])
  {
  }

  lemma LoneName(flat: seq<string>, name: string)
    requires |flat| % 2 == 0
    ensures Pairs(flat + [name]) == Pairs(flat)
  {
    var parts := flat + [name];
    OddPairs(parts);
    assert parts[..|flat|] == flat;
  }

  /** Main result: the option part of an OACK, read by the same loop, gives back every map of
      proper options. */
  lemma OptionsReadBack(options: Options)
    requires Proper(options)
    ensures Describes(Pairs(Split(Encode(options))), options)
  {
    SplitEncoded(options);
    FlatLength(options);
    LoneName(Flat(options), "");
    PairsOfFlat(options);
  }

  lemma Parts(filename: string, mode: string, rest: seq<string>)
    ensures var parts := [filename] + ([mode] + rest); parts[0] == filename && parts[1] == mode && parts[2..] == rest
  {
  }

  /** Main result: a read request with options is read back whole, its mode in lower case. */
  lemma RequestReadsBack(filename: string, mode: string, options: Options)
    requires NulFree(filename) && NulFree(mode) && Proper(options)
    ensures var r := Parsed(filename + "\0" + mode + "\0" + Encode(options));
            && r.Some? && r.value.filename == filename && r.value.mode == Lower(mode)
            && Describes(r.value.options, options)
  {
    var tail := mode + "\0" + Encode(options);
    assert filename + "\0" + mode + "\0" + Encode(options) == filename + "\0" + tail;
    SplitFirst(filename, tail);
    SplitFirst(mode, Encode(options));
    OptionsReadBack(options);
    Parts(filename, mode, Split(Encode(options)));
  }
}
