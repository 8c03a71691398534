/**
 * `Util.getParams`: the page's query string, with its leading `?` dropped and
 * percent-decoded as a whole, is split on `&`; each piece is split on `=`, and
 * the pieces are folded left to right into an object mapping the text before
 * the first `=` to the text between the first and second `=`.
 * The decoder and the query string are inputs: `decode` returns `None` where
 * `decodeURIComponent` throws a `URIError`.
 */
module QueryParams {
  import opened Wrappers

  /** A parsed value: `None` is `undefined`, what a piece without `=` yields. */
  type Params = map<string, Option<string>>

  function Occurrences(s: string, c: char): nat
  {
    if s == [] then 0 else (if s[0] == c then 1 else 0) + Occurrences(s[1..], c)
  }

  /** The pieces joined back with the separator between them. */
  function Join(pieces: seq<string>, sep: char): string
    requires |pieces| >= 1
  {
    if |pieces| == 1 then pieces[0] else pieces[0] + [sep] + Join(pieces[1..], sep)
  }

  /**
   * `String.prototype.split` with a one-character separator: the maximal runs
   * between separators, including empty ones, so there is always one piece more
   * than there are separators.
   */
  function Split(s: string, sep: char): (r: seq<string>)
    ensures |r| == Occurrences(s, sep) + 1
    ensures forall i :: 0 <= i < |r| ==> sep !in r[i]
    ensures Join(r, sep) == s
  {
    if s == [] then [""]
    else
      var rest := Split(s[1..], sep);
      if s[0] == sep then [""] + rest
      else
        assert s == [s[0]] + s[1..];
        [[s[0]] + rest[0]] + rest[1..]
  }

  lemma {:induction false} SplitNoSeparator(p: string, sep: char)
    requires sep !in p
    ensures Split(p, sep) == [p]
  {
    if p != [] {
      SplitNoSeparator(p[1..], sep);
      assert p == [p[0]] + p[1..];
    }
  }

  lemma {:induction false} SplitAtSeparator(p: string, sep: char, t: string)
    requires sep !in p
    ensures Split(p + [sep] + t, sep) == [p] + Split(t, sep)
  {
    var s := p + [sep] + t;
    if p == [] {
      assert s[0] == sep && s[1..] == t;
    } else {
      assert s[0] == p[0] && s[1..] == p[1..] + [sep] + t;
      SplitAtSeparator(p[1..], sep, t);
      assert p == [p[0]] + p[1..];
    }
  }

  /** Split undoes Join: pieces free of the separator are recovered exactly. */
  lemma {:induction false} SplitJoin(pieces: seq<string>, sep: char)
    requires |pieces| >= 1
    requires forall i :: 0 <= i < |pieces| ==> sep !in pieces[i]
    ensures Split(Join(pieces, sep), sep) == pieces
  {
    if |pieces| == 1 {
      SplitNoSeparator(pieces[0], sep);
    } else {
      SplitJoin(pieces[1..], sep);
      SplitAtSeparator(pieces[0], sep, Join(pieces[1..], sep));
      assert pieces == [pieces[0]] + pieces[1..];
    }
  }

  /** `current.split('=')[0]`. */
  function KeyOf(piece: string): string
  {
    Split(piece, '=')[0]
  }

  /** `current.split('=')[1]`, `undefined` when there is no `=`. */
  function ValueOf(piece: string): Option<string>
  {
    var parts := Split(piece, '=');
    if |parts| > 1 then Some(parts[1]) else None
  }

  /**
   * A piece is its key, then (if it has any `=`) a `=`, its value, and a rest
   * that is empty or starts at the second `=`. Neither key nor value holds a `=`.
   */
  lemma PieceParts(piece: string)
    ensures '=' !in KeyOf(piece)
    ensures ValueOf(piece) == None <==> '=' !in piece
    ensures ValueOf(piece) == None ==> KeyOf(piece) == piece
    ensures ValueOf(piece).Some? ==>
              var key, value := KeyOf(piece), ValueOf(piece).value;
              var n := |key| + 1 + |value|;
              && '=' !in value
              && n <= |piece|
              && piece[..n] == key + "=" + value
              && (n == |piece| || piece[n] == '=')
  {
    var parts := Split(piece, '=');
    if |parts| > 1 {
      var tail := Join(parts[1..], '=');
      assert piece == parts[0] + "=" + tail;
      if |parts| > 2 {
        assert tail == parts[1] + "=" + Join(parts[2..], '=');
      }
      assert piece[|parts[0]|] == '=';
    }
  }

  /** The key whose assignment reaches the prototype setter instead of an own property. */
  const ProtoKey: string := "__proto__"

  /**
   * One step of the `reduce`: the piece's value is stored under its key. Assigning
   * to `__proto__` with a string or `undefined` leaves a plain object unchanged.
   */
  function Assign(acc: Params, piece: string): Params
  {
    if KeyOf(piece) == ProtoKey then acc else acc[KeyOf(piece) := ValueOf(piece)]
  }

  /** The `reduce` over the pieces, from `{}`, left to right. */
  function Collect(pieces: seq<string>): Params
  {
    if pieces == [] then map[] else Assign(Collect(pieces[..|pieces| - 1]), pieces[|pieces| - 1])
  }

  /** `slice(1)`: the query string without its leading `?`. */
  function DropFirst(search: string): string
  {
    if search == [] then [] else search[1..]
  }

  function GetParams(search: string, decode: string -> Option<string>): Option<Params>
  {
    match decode(DropFirst(search))
    case None => None
    case Some(query) => Some(Collect(Split(query, '&')))
  }

  /** A key is in the result exactly when some piece has it as its key (`__proto__` never is). */
  lemma {:induction false} CollectKeys(pieces: seq<string>, k: string)
    ensures k in Collect(pieces) <==> k != ProtoKey && exists i :: 0 <= i < |pieces| && KeyOf(pieces[i]) == k
  {
    if pieces != [] {
      var prefix := pieces[..|pieces| - 1];
      CollectKeys(prefix, k);
      if k in Collect(prefix) {
        var i :| 0 <= i < |prefix| && KeyOf(prefix[i]) == k;
        assert KeyOf(pieces[i]) == k;
      }
      if k != ProtoKey && exists i :: 0 <= i < |pieces| && KeyOf(pieces[i]) == k {
        var i :| 0 <= i < |pieces| && KeyOf(pieces[i]) == k;
        if i < |prefix| {
          assert KeyOf(prefix[i]) == k;
        }
      }
    }
  }

  /** A repeated key takes the value of its last piece. */
  lemma {:induction false} CollectLastWins(pieces: seq<string>, i: nat)
    requires i < |pieces| && KeyOf(pieces[i]) != ProtoKey
    requires forall j :: i < j < |pieces| ==> KeyOf(pieces[j]) != KeyOf(pieces[i])
    ensures KeyOf(pieces[i]) in Collect(pieces)
    ensures Collect(pieces)[KeyOf(pieces[i])] == ValueOf(pieces[i])
  {
    var prefix := pieces[..|pieces| - 1];
    if i < |pieces| - 1 {
      assert prefix[i] == pieces[i];
      CollectLastWins(prefix, i);
    }
  }

  /** The result has at most as many keys as there are pieces. */
  lemma {:induction false} CollectSize(pieces: seq<string>)
    ensures |Collect(pieces)| <= |pieces|
  {
    if pieces != [] {
      var prefix := pieces[..|pieces| - 1];
      var last := pieces[|pieces| - 1];
      CollectSize(prefix);
      var acc := Collect(prefix);
      if KeyOf(last) != ProtoKey {
        assert acc[KeyOf(last) := ValueOf(last)].Keys == acc.Keys + {KeyOf(last)};
      }
    }
  }

  /** What `getParams` returns, against the query string and the decoder. */
  lemma GetParamsSpec(search: string, decode: string -> Option<string>)
    ensures decode(DropFirst(search)).None? <==> GetParams(search, decode).None?
    ensures decode(DropFirst(search)).Some? ==>
              var pieces := Split(decode(DropFirst(search)).value, '&');
              && Join(pieces, '&') == decode(DropFirst(search)).value
              && |GetParams(search, decode).value| <= |pieces|
              && (forall k :: k in GetParams(search, decode).value <==>
                     k != ProtoKey && exists i :: 0 <= i < |pieces| && KeyOf(pieces[i]) == k)
  {
    if decode(DropFirst(search)).Some? {
      var pieces := Split(decode(DropFirst(search)).value, '&');
      CollectSize(pieces);
      forall k {
        CollectKeys(pieces, k);
      }
    }
  }

  /** An empty query (no query string, or a bare `?`) yields one key, the empty string, with an undefined value. */
  lemma EmptyQuery(decode: string -> Option<string>)
    requires decode("") == Some("")
    ensures GetParams("", decode) == Some(map["" := None])
    ensures GetParams("?", decode) == Some(map["" := None])
  {
    assert Split("", '=') == [""];
    assert Split("", '&') == [""];
    assert [""][..0] == [];
    assert "?"[1..] == "";
  }

  /** A key free of `=` followed by `=`: the key, and the value up to the next `=`. */
  lemma PieceSplit(key: string, rest: string)
    requires '=' !in key
    ensures KeyOf(key + "=" + rest) == key
    ensures ValueOf(key + "=" + rest) == Some(KeyOf(rest))
  {
    SplitAtSeparator(key, '=', rest);
  }

  lemma CollectSingle(p: string)
    ensures Collect([p]) == Assign(map[], p)
  {
    assert [p][..0] == [];
  }

  lemma CollectPair(p: string, q: string)
    ensures Collect([p, q]) == Assign(Assign(map[], p), q)
  {
    assert [p, q][..1] == [p];
    CollectSingle(p);
  }

  /**
   * Decoding comes before splitting: an encoded `&` separates pieces, and text
   * after a second `=` is dropped.
   */
  lemma DecodedSeparatorsSplit(decode: string -> Option<string>)
    requires decode("a%26b=1=2") == Some("a&b=1=2")
    ensures GetParams("?a%26b=1=2", decode) == Some(map["a" := None, "b" := Some("1")])
  {
    assert DropFirst("?a%26b=1=2") == "a%26b=1=2";
    TwoPieces();
    PieceValues();
    CollectPair("a", "b=1=2");
    assert "a" != ProtoKey && "b" != ProtoKey;
    assert Collect(["a", "b=1=2"]) == map["a" := None]["b" := Some("1")];
  }

  lemma TwoPieces()
    ensures Split("a&b=1=2", '&') == ["a", "b=1=2"]
  {
    assert "a&b=1=2" == "a" + "&" + "b=1=2";
    SplitAtSeparator("a", '&', "b=1=2");
    SplitNoSeparator("b=1=2", '&');
  }

  lemma PieceValues()
    ensures KeyOf("a") == "a" && ValueOf("a") == None
    ensures KeyOf("b=1=2") == "b" && ValueOf("b=1=2") == Some("1")
  {
    SplitNoSeparator("a", '=');
    assert "b=1=2" == "b" + "=" + "1=2";
    PieceSplit("b", "1=2");
    assert "1=2" == "1" + "=" + "2";
    PieceSplit("1", "2");
  }

  /** The `__proto__=x` piece: no `&`, and the prototype key before its `=`. */
  lemma ProtoPiece()
    ensures "__proto__=x" == ProtoKey + "=" + "x"
    ensures '&' !in "__proto__=x" && '=' !in ProtoKey
  {
  }

  /** A `__proto__` piece contributes nothing. */
  lemma ProtoPieceIgnored(decode: string -> Option<string>)
    requires decode("__proto__=x") == Some("__proto__=x")
    ensures GetParams("?__proto__=x", decode) == Some(map[])
  {
    assert DropFirst("?__proto__=x") == "__proto__=x";
    ProtoPiece();
    SplitNoSeparator("__proto__=x", '&');
    PieceSplit(ProtoKey, "x");
    CollectSingle("__proto__=x");
  }
}
