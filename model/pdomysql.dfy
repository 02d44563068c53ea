/** The PDO MySQL driver: the DSN string built from connection parameters. */
module PdoMysql {
  import opened Base

  /** The connection parameters that are set (isset: present and not
      null), each with the string PHP concatenation renders it as. */
  type Params = map<string, string>

  /** The name the driver reports. */
  const DriverName: string := "pdo_mysql"

  /** The parameters the DSN may carry, in the order it carries them. */
  const DsnKeys: seq<string> := ["host", "port", "dbname", "unix_socket", "charset"]

  /** A parameter contributes a segment when it is set; the host must
      also be non-empty. */
  predicate Emits(params: Params, key: string) {
    key in params && (key == "host" ==> params[key] != "")
  }

  function Segment(key: string, value: string): string {
    key + "=" + value + ";"
  }

  /** The segment a parameter contributes: nothing unless it is emitted. */
  function Emitted(params: Params, key: string): string {
    if Emits(params, key) then Segment(key, params[key]) else ""
  }

  /** The DSN after the appends for the first n parameters. */
  function DsnUpTo(params: Params, n: nat): string
    requires n <= |DsnKeys|
  {
    if n == 0 then "mysql:" else DsnUpTo(params, n - 1) + Emitted(params, DsnKeys[n - 1])
  }

  /** The DSN the driver hands to PDO. */
  function Dsn(params: Params): string {
    DsnUpTo(params, |DsnKeys|)
  }

  /** `constructPdoDsn`: one conditional append per parameter, in order. */
  method ConstructPdoDsn(params: Params) returns (dsn: string)
    ensures dsn == Dsn(params)
  {
    dsn := "mysql:";
    if "host" in params && params["host"] != "" {
      dsn := dsn + Segment("host", params["host"]);
    }
    assert dsn == DsnUpTo(params, 1);
    if "port" in params {
      dsn := dsn + Segment("port", params["port"]);
    }
    assert dsn == DsnUpTo(params, 2);
    if "dbname" in params {
      dsn := dsn + Segment("dbname", params["dbname"]);
    }
    assert dsn == DsnUpTo(params, 3);
    if "unix_socket" in params {
      dsn := dsn + Segment("unix_socket", params["unix_socket"]);
    }
    assert dsn == DsnUpTo(params, 4);
    if "charset" in params {
      dsn := dsn + Segment("charset", params["charset"]);
    }
  }

  /** The pair a parameter contributes: none unless it is emitted. */
  function Piece(params: Params, key: string): (ps: seq<(string, string)>)
    ensures |ps| <= 1
  {
    if Emits(params, key) then [(key, params[key])] else []
  }

  /** The (key, value) pairs carried by the first n parameters. */
  function PairsUpTo(params: Params, n: nat): seq<(string, string)>
    requires n <= |DsnKeys|
  {
    if n == 0 then [] else PairsUpTo(params, n - 1) + Piece(params, DsnKeys[n - 1])
  }

  /** The (key, value) pairs the DSN carries. */
  function Pairs(params: Params): seq<(string, string)> {
    PairsUpTo(params, |DsnKeys|)
  }

  function Render(ps: seq<(string, string)>): string
    decreases |ps|
  {
    if |ps| == 0 then "" else Segment(ps[0].0, ps[0].1) + Render(ps[1..])
  }

  lemma {:induction false} RenderAppend(a: seq<(string, string)>, b: seq<(string, string)>)
    ensures Render(a + b) == Render(a) + Render(b)
    decreases |a|
  {
    if |a| > 0 {
      assert (a + b)[1..] == a[1..] + b;
      RenderAppend(a[1..], b);
    } else {
      assert a + b == b;
    }
  }

  /** The DSN is the prefix followed by the rendered pairs. */
  lemma {:induction false} DsnRendersPairs(params: Params, n: nat)
    requires n <= |DsnKeys|
    ensures DsnUpTo(params, n) == "mysql:" + Render(PairsUpTo(params, n))
  {
    if n > 0 {
      DsnRendersPairs(params, n - 1);
      var a := PairsUpTo(params, n - 1);
      var b := Piece(params, DsnKeys[n - 1]);
      RenderAppend(a, b);
      assert Render(b) == Emitted(params, DsnKeys[n - 1]);
    }
  }

  /** The DSN always starts with the driver prefix, and parameters that
      are not set contribute nothing. */
  lemma DsnPrefix(params: Params)
    ensures IsPrefix("mysql:", Dsn(params))
    ensures (forall k :: k in DsnKeys ==> !Emits(params, k)) ==> Dsn(params) == "mysql:"
  {
    DsnRendersPairs(params, |DsnKeys|);
    if forall k :: k in DsnKeys ==> !Emits(params, k) {
      PairsExact(params, |DsnKeys|);
    }
  }

  /** The pairs are exactly the emitted parameters with their own values,
      in the fixed order host, port, dbname, unix_socket, charset. */
  lemma {:induction false} PairsExact(params: Params, n: nat)
    requires n <= |DsnKeys|
    ensures forall i :: 0 <= i < |PairsUpTo(params, n)| ==>
      var (k, v) := PairsUpTo(params, n)[i]; Rank(k) < n && Emits(params, k) && v == params[k]
    ensures forall r :: 0 <= r < n && Emits(params, DsnKeys[r]) ==>
      exists i :: 0 <= i < |PairsUpTo(params, n)| && PairsUpTo(params, n)[i].0 == DsnKeys[r]
    ensures forall i, j :: 0 <= i < j < |PairsUpTo(params, n)| ==>
      Rank(PairsUpTo(params, n)[i].0) < Rank(PairsUpTo(params, n)[j].0)
  {
    if n > 0 {
      PairsExact(params, n - 1);
      var ps := PairsUpTo(params, n);
      var a := PairsUpTo(params, n - 1);
      assert ps == a + Piece(params, DsnKeys[n - 1]);
      assert Rank(DsnKeys[n - 1]) == n - 1;
      forall i | 0 <= i < |ps|
        ensures Rank(ps[i].0) < n && Emits(params, ps[i].0) && ps[i].1 == params[ps[i].0]
      {
        if i < |a| {
          assert ps[i] == a[i];
        } else {
          assert Emits(params, DsnKeys[n - 1]);
          assert ps[i] == (DsnKeys[n - 1], params[DsnKeys[n - 1]]);
        }
      }
      forall r | 0 <= r < n && Emits(params, DsnKeys[r])
        ensures exists i :: 0 <= i < |ps| && ps[i].0 == DsnKeys[r]
      {
        if r == n - 1 {
          assert ps[|a|].0 == DsnKeys[r];
        } else {
          var i :| 0 <= i < |a| && a[i].0 == DsnKeys[r];
          assert ps[i].0 == DsnKeys[r];
        }
      }
    }
  }

  /** Position of a DSN key in the fixed order (the others come last). */
  function Rank(key: string): nat {
    if key == "host" then 0 else if key == "port" then 1 else if key == "dbname" then 2
    else if key == "unix_socket" then 3 else if key == "charset" then 4 else 5
  }

  /** The ranked keys are the DSN keys, none of which holds `=` or `;`. */
  lemma KeyChars(k: string)
    requires Rank(k) < |DsnKeys|
    ensures k in DsnKeys && '=' !in k && ';' !in k
  {
    assert k == DsnKeys[Rank(k)];
  }

  // ---------------------------------------------------------------------
  // Reading a DSN back

  /** Splits "k=v;k=v;..." into its pairs: each segment runs to the next
      `;` and its key to the segment's first `=`. */
  function ParsePairs(s: string): (ps: seq<(string, string)>)
    decreases |s|
  {
    if ';' !in s then []
    else
      var i := FirstIndex(s, ';');
      var seg := s[..i];
      (if '=' in seg then
         var j := FirstIndex(seg, '=');
         [(seg[..j], seg[j + 1..])]
       else [(seg, "")]) + ParsePairs(s[i + 1..])
  }

  /** The first segment of a rendered string reads back as its own pair. */
  lemma ParseSegment(k: string, v: string, rest: string)
    requires '=' !in k && ';' !in k && ';' !in v
    ensures ParsePairs(k + "=" + v + ";" + rest) == [(k, v)] + ParsePairs(rest)
  {
    var s := k + "=" + v + ";" + rest;
    var n := |k| + 1 + |v|;
    assert s[n] == ';';
    var seg := s[..n];
    assert seg == k + "=" + v;
    assert ';' !in seg by {
      forall t | 0 <= t < n ensures seg[t] != ';' {
        if t < |k| {
          assert seg[t] == k[t];
        } else if t > |k| {
          assert seg[t] == v[t - |k| - 1];
        }
      }
    }
    FirstIndexAt(s, ';', n);
    assert seg[|k|] == '=';
    assert seg[..|k|] == k;
    FirstIndexAt(seg, '=', |k|);
    assert seg[|k| + 1..] == v;
    assert s[n + 1..] == rest;
  }

  /** Reading the rendered segments back gives the same pairs, provided
      no key holds `=` or `;` and no value holds `;`. */
  lemma {:induction false} ParseRender(ps: seq<(string, string)>)
    requires forall i :: 0 <= i < |ps| ==> '=' !in ps[i].0 && ';' !in ps[i].0 && ';' !in ps[i].1
    ensures ParsePairs(Render(ps)) == ps
    decreases |ps|
  {
    if |ps| == 0 {
      assert ';' !in Render(ps);
    } else {
      var k, v := ps[0].0, ps[0].1;
      var rest := Render(ps[1..]);
      var s := k + "=" + v + ";" + rest;
      assert Render(ps) == s;
      ParseSegment(k, v, rest);
      ParseRender(ps[1..]);
      assert ParsePairs(s) == [(k, v)] + ps[1..];
      assert ps == [(k, v)] + ps[1..];
    }
  }

  /** Reading a DSN back: the prefix, then exactly the set parameters
      in the fixed order, each with its own value (when values hold no
      `;`). */
  lemma DsnRoundTrip(params: Params)
    requires forall k :: k in DsnKeys && k in params ==> ';' !in params[k]
    ensures var d := Dsn(params);
      |d| >= 6 && d[..6] == "mysql:" && ParsePairs(d[6..]) == Pairs(params)
  {
    var ps := Pairs(params);
    assert ps == PairsUpTo(params, |DsnKeys|);
    PairsExact(params, |DsnKeys|);
    forall i | 0 <= i < |ps| ensures '=' !in ps[i].0 && ';' !in ps[i].0 && ';' !in ps[i].1 {
      KeyChars(ps[i].0);
    }
    ParseRender(ps);
    DsnRendersPairs(params, |DsnKeys|);
    DsnPrefix(params);
    assert Dsn(params)[6..] == Render(ps);
  }
}
