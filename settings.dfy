/**
 * The two pieces of configuration logic in core/settings.py: `get_env`, and the parser
 * that turns the `ADMINS` environment variable into a list of Telegram ids.
 * The environment is a map from variable names to values.
 */
module Settings {
  import opened Wrappers
  import Strings

  type Environment = map<string, string>

  /** `get_env`: the variable's value, else the default, else a ValueError naming the variable. */
  function GetEnv(env: Environment, key: string, default: Option<string>): (r: Result<string, string>)
    ensures r.Ok? <==> key in env || default.Some?
    ensures key in env ==> r == Ok(env[key])
    ensures key !in env && default.Some? ==> r == Ok(default.value)
    ensures r.Err? ==> r.error == "Missing required environment variable: " + key
  {
    if key in env then Ok(env[key])
    else if default.Some? then Ok(default.value)
    else Err("Missing required environment variable: " + key)
  }

  /** What `int(p.strip())` makes of one comma-separated piece, and whether the filter keeps it. */
  datatype Piece = Blank | Id(value: int) | Junk(text: string)

  function Classify(piece: string): (c: Piece)
    ensures c.Blank? <==> Strings.AllSpace(piece)
    ensures c.Id? ==> Strings.PyInt(Strings.Strip(piece)) == Some(c.value)
    ensures c.Junk? ==> c.text == Strings.Strip(piece) && c.text != "" && Strings.PyInt(c.text).None?
  {
    var t := Strings.Strip(piece);
    if t == "" then Blank
    else match Strings.PyInt(t)
      case None => Junk(t)
      case Some(v) => Id(v)
  }

  /**
   * The list comprehension over classified pieces: blank pieces are skipped, the ids are
   * kept in order, and the first piece `int` refuses raises ValueError (here `Err` with
   * the stripped piece).
   */
  function Collect(cs: seq<Piece>): (r: Result<seq<int>, string>)
    ensures r.Ok? ==> |r.value| <= |cs|
  {
    if cs == [] then Ok([])
    else match cs[0]
      case Blank => Collect(cs[1..])
      case Junk(t) => Err(t)
      case Id(v) =>
        var rest := Collect(cs[1..]);
        if rest.Ok? then Ok([v] + rest.value) else rest
  }

  /**
   * Collecting fails exactly when some piece is junk, and then reports the first junk piece;
   * otherwise it yields the ids of the `Id` pieces, in order.
   */
  lemma {:induction false} CollectFails(cs: seq<Piece>)
    ensures Collect(cs).Err? <==> exists i :: 0 <= i < |cs| && cs[i].Junk?
    ensures Collect(cs).Err? ==>
      exists i :: 0 <= i < |cs| && cs[i].Junk? && Collect(cs).error == cs[i].text
                  && forall j :: 0 <= j < i ==> !cs[j].Junk?
  {
    if cs != [] {
      var tail := cs[1..];
      CollectFails(tail);
      if !cs[0].Junk? && Collect(cs).Err? {
        var i :| 0 <= i < |tail| && tail[i].Junk? && Collect(tail).error == tail[i].text
                 && forall j :: 0 <= j < i ==> !tail[j].Junk?;
        assert cs[i + 1] == tail[i];
        forall j | 0 <= j < i + 1 ensures !cs[j].Junk? {
          if j > 0 {
            assert cs[j] == tail[j - 1];
          }
        }
      }
      if Collect(cs).Ok? {
        forall i | 0 <= i < |cs| ensures !cs[i].Junk? {
          if i > 0 {
            assert cs[i] == tail[i - 1];
          }
        }
      }
    }
  }

  /** Pieces that are all `Id` collect to their ids, in order. */
  lemma {:induction false} CollectIds(cs: seq<Piece>)
    requires forall j :: 0 <= j < |cs| ==> cs[j].Id?
    ensures Collect(cs).Ok? && |Collect(cs).value| == |cs|
    ensures forall j :: 0 <= j < |cs| ==> Collect(cs).value[j] == cs[j].value
  {
    if cs != [] {
      CollectIds(cs[1..]);
    }
  }

  /** Pieces that are all blank collect to no ids. */
  lemma {:induction false} CollectBlanks(cs: seq<Piece>)
    requires forall j :: 0 <= j < |cs| ==> cs[j].Blank?
    ensures Collect(cs) == Ok([])
  {
    if cs != [] {
      CollectBlanks(cs[1..]);
    }
  }

  function Classified(pieces: seq<string>): (cs: seq<Piece>)
    ensures |cs| == |pieces|
  {
    seq(|pieces|, i requires 0 <= i < |pieces| => Classify(pieces[i]))
  }

  /** `ADMINS`: the variable split on commas and parsed; an unset variable reads as "". */
  function ParseAdmins(raw: Option<string>): Result<seq<int>, string> {
    Collect(Classified(Strings.Split(if raw.Some? then raw.value else "", ',')))
  }

  /** An unset `ADMINS`, or one made only of commas and whitespace, gives no admins. */
  lemma BlankAdmins(raw: Option<string>)
    requires raw.Some? ==> forall i :: 0 <= i < |raw.value| ==> raw.value[i] == ',' || Strings.IsSpace(raw.value[i])
    ensures ParseAdmins(raw) == Ok([])
  {
    var s := if raw.Some? then raw.value else "";
    var pieces := Strings.Split(s, ',');
    Strings.SplitPiecesOfBlank(s, ',');
    CollectBlanks(Classified(pieces));
  }

  /**
   * `ADMINS` fails to parse (settings raise ValueError) exactly when some comma-separated
   * piece is neither blank nor an integer literal, and the error is the first such piece, stripped.
   */
  lemma AdminsFail(raw: string)
    ensures var cs := Classified(Strings.Split(raw, ','));
      ParseAdmins(Some(raw)).Err? <==> exists i :: 0 <= i < |cs| && cs[i].Junk?
    ensures var cs := Classified(Strings.Split(raw, ','));
      ParseAdmins(Some(raw)).Err? ==>
        exists i :: 0 <= i < |cs| && cs[i].Junk? && ParseAdmins(Some(raw)).error == cs[i].text
                    && forall j :: 0 <= j < i ==> !cs[j].Junk?
  {
    CollectFails(Classified(Strings.Split(raw, ',')));
  }

  /** The decimal numeral of each id. */
  function Numerals(ids: seq<int>): (r: seq<string>)
    ensures |r| == |ids|
    ensures forall k :: 0 <= k < |ids| ==> r[k] == Strings.IntToString(ids[k])
  {
    if ids == [] then [] else [Strings.IntToString(ids[0])] + Numerals(ids[1..])
  }

  /** A numeral survives `strip()` and `int()` unchanged. */
  lemma NumeralParses(i: int)
    ensures Strings.Strip(Strings.IntToString(i)) == Strings.IntToString(i)
    ensures Strings.PyInt(Strings.Strip(Strings.IntToString(i))) == Some(i)
  {
    var s := Strings.IntToString(i);
    Strings.IntToStringChars(i);
    assert !Strings.IsSpace(s[0]) && !Strings.IsSpace(s[|s| - 1]);
    Strings.StripUnchanged(s);
    Strings.IntToStringRoundTrip(i);
  }

  lemma ClassifyNumeral(i: int)
    ensures Classify(Strings.IntToString(i)) == Id(i)
  {
    NumeralParses(i);
  }

  /** The numerals of ids classify as those ids. */
  lemma NumeralPieces(ids: seq<int>)
    ensures forall k :: 0 <= k < |ids| ==> Classified(Numerals(ids))[k] == Id(ids[k])
  {
    var parts := Numerals(ids);
    forall k | 0 <= k < |ids| ensures Classified(parts)[k] == Id(ids[k]) {
      ClassifyNumeral(ids[k]);
    }
  }

  /** Writing ids as comma-separated numerals and parsing `ADMINS` gives back the same ids, in order. */
  lemma AdminsRoundTrip(ids: seq<int>)
    ensures ParseAdmins(Some(Strings.Join(Numerals(ids), ','))) == Ok(ids)
  {
    var parts := Numerals(ids);
    if ids == [] {
      BlankAdmins(Some(""));
    } else {
      forall j | 0 <= j < |parts|
        ensures ',' !in parts[j]
      {
        Strings.IntToStringChars(ids[j]);
        assert forall k :: 0 <= k < |parts[j]| ==> parts[j][k] != ',';
      }
      Strings.SplitJoin(parts, ',');
      NumeralPieces(ids);
      var cs := Classified(parts);
      CollectIds(cs);
      assert Collect(cs).value == ids;
    }
  }
}
