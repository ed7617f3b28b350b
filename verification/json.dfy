/**
 * The decoded form of a JSON document as Python's json module produces it:
 * dicts, lists, str, int, float, bool and None.  Decoding and encoding
 * themselves are library code and are not modelled; a line of a JSON-lines
 * file reaches the model already decoded (or not) as an Option<Value>.
 */
module Json {
  import opened Wrappers

  datatype Value =
    | Null
    | Bool(b: bool)
    | Int(i: int)
    | Float(f: real)
    | Str(s: string)
    | Arr(items: seq<Value>)
    | Obj(fields: map<string, Value>)

  /** Python truthiness: None, False, 0, 0.0, "", [] and {} are false. */
  predicate Truthy(v: Value)
    ensures Truthy(v) ==> v != Null
  {
    match v
    case Null => false
    case Bool(b) => b
    case Int(i) => i != 0
    case Float(f) => f != 0.0
    case Str(s) => s != []
    case Arr(xs) => xs != []
    case Obj(m) => m != map[]
  }

  /** `d.get(key, default)` on a decoded dict. */
  function Get(m: map<string, Value>, key: string, default: Value): (r: Value)
    ensures key in m ==> r == m[key]
    ensures key !in m ==> r == default
  {
    if key in m then m[key] else default
  }

  /** The decimal digits of a natural number, most significant first. */
  function NatToString(n: nat): (r: string)
    ensures r != []
    ensures forall i :: 0 <= i < |r| ==> '0' <= r[i] <= '9'
    decreases n
  {
    var d := ['0' + (n % 10) as char];
    if n < 10 then d else NatToString(n / 10) + d
  }

  /** Different numbers have different decimal renderings. */
  lemma {:induction false} NatToStringInjective(a: nat, b: nat)
    requires NatToString(a) == NatToString(b)
    ensures a == b
    decreases a
  {
    var sa, sb := NatToString(a), NatToString(b);
    if a < 10 || b < 10 {
      // one digit each: a longer rendering cannot equal a single digit
      assert sa[0] == sb[0];
    } else {
      var pa, pb := NatToString(a / 10), NatToString(b / 10);
      assert sa == pa + ['0' + (a % 10) as char];
      assert sb == pb + ['0' + (b % 10) as char];
      assert |pa| == |pb|;
      assert sa[|pa|] == sb[|pb|];
      assert pa == sa[..|pa|] == sb[..|pb|] == pb;
      NatToStringInjective(a / 10, b / 10);
    }
  }

  function IntToString(i: int): (r: string)
    ensures r != []
    ensures r[0] == '-' <==> i < 0
  {
    if i < 0 then "-" + NatToString(-i) else NatToString(i)
  }

  /**
   * Python's `str()` of a decoded scalar, as used by an f-string.  Lists,
   * dicts and floats are rendered by a placeholder: their repr text is not
   * part of this model.
   */
  function Show(v: Value): (r: string)
    ensures v.Str? ==> r == v.s
    ensures v.Null? ==> r == "None"
  {
    match v
    case Null => "None"
    case Bool(b) => if b then "True" else "False"
    case Int(i) => IntToString(i)
    case Float(_) => "<float>"
    case Str(s) => s
    case Arr(_) => "<list>"
    case Obj(_) => "<dict>"
  }
}
