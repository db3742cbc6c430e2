/**
 * The query operators of the persistence layer: a fixed group of eight
 * (key, SQL fragment) pairs, looked up by a trimmed, upper-cased name, and
 * the comma-joined list of their keys.
 */
module Operators {
  import opened Wrappers
  import Ascii

  /** An operator: its name and the SQL fragment it stands for. */
  datatype Operator = Operator(key: string, value: string)

  const EQ := Operator("EQ", " = ")
  const LT := Operator("LT", " < ")
  const LE := Operator("LE", " <= ")
  const GT := Operator("GT", " > ")
  const GE := Operator("GE", " >= ")
  const LIKE := Operator("LIKE", " LIKE %{value}%")
  const LLIKE := Operator("LLIKE", " LIKE %{value}")
  const RLIKE := Operator("RLIKE", " LIKE {value}%")

  /** ENUM_GROUP: the operators in the order the static block inserts them. */
  const EnumGroup: seq<Operator> := [EQ, LT, LE, GT, GE, LIKE, LLIKE, RLIKE]

  /** The keys of `ops`, in order. */
  function Keys(ops: seq<Operator>): (ks: seq<string>)
    ensures |ks| == |ops| && forall i :: 0 <= i < |ops| ==> ks[i] == ops[i].key
  {
    seq(|ops|, i requires 0 <= i < |ops| => ops[i].key)
  }

  /** The group holds eight operators whose keys are pairwise distinct. */
  lemma KeysDistinct()
    ensures |EnumGroup| == 8
    ensures forall i, j :: 0 <= i < j < |EnumGroup| ==> EnumGroup[i].key != EnumGroup[j].key
  {
  }

  /** The name as `get` compares it: trimmed, then upper-cased; null stays null. */
  function Normalize(name: Option<string>): Option<string> {
    if name.None? then None else Some(Ascii.ToUpper(Ascii.Trim(name.value)))
  }

  /** The first operator of `ops` whose key equals `name`; a null name equals no key. */
  function FirstWithKey(ops: seq<Operator>, name: Option<string>): (r: Option<Operator>)
    ensures r.Some? ==> name.Some? && r.value in ops && r.value.key == name.value
    ensures r.None? <==> name.None? || name.value !in Keys(ops)
  {
    if ops == [] || name.None? then None
    else if ops[0].key == name.value then Some(ops[0])
    else
      var r := FirstWithKey(ops[1..], name);
      assert Keys(ops) == [ops[0].key] + Keys(ops[1..]);
      r
  }

  /** What `get` answers for `name`. */
  function Lookup(name: Option<string>): Option<Operator> {
    FirstWithKey(EnumGroup, Normalize(name))
  }

  /** The loop of `get`: walks `ops` in order and stops at the first operator carrying `key`. */
  method Scan(ops: seq<Operator>, key: Option<string>) returns (r: Option<Operator>)
    ensures r == FirstWithKey(ops, key)
  {
    var i := 0;
    while i < |ops|
      invariant 0 <= i <= |ops|
      invariant FirstWithKey(ops[i..], key) == FirstWithKey(ops, key)
    {
      if key.Some? && ops[i].key == key.value {
        return Some(ops[i]);
      }
      assert ops[i..][1..] == ops[i + 1..];
      i := i + 1;
    }
    return None;
  }

  /** get: scans the group in order and returns the first operator whose key is the normalised name. */
  method Get(name: Option<string>) returns (r: Option<Operator>)
    ensures r == Lookup(name)
    ensures r.Some? ==> name.Some? && r.value in EnumGroup
                        && r.value.key == Ascii.ToUpper(Ascii.Trim(name.value))
    ensures r.None? <==> name.None? || Ascii.ToUpper(Ascii.Trim(name.value)) !in Keys(EnumGroup)
  {
    r := Scan(EnumGroup, Normalize(name));
  }

  /** exist: whether `get` finds an operator for `name`. */
  method Exist(name: Option<string>) returns (b: bool)
    ensures b <==> name.Some? && Ascii.ToUpper(Ascii.Trim(name.value)) in Keys(EnumGroup)
  {
    var r := Get(name);
    b := r.Some?;
  }

  /** A key as the group spells them: upper-case letters only. */
  predicate IsUpperWord(s: string) {
    s != [] && forall i :: 0 <= i < |s| ==> 'A' <= s[i] <= 'Z'
  }

  lemma UpperWordIsNormal(s: string)
    requires IsUpperWord(s)
    ensures Normalize(Some(s)) == Some(s)
  {
    assert Ascii.Trim(s) == s;
    assert Ascii.ToUpper(s) == s;
  }

  lemma KeysAreUpperWords()
    ensures forall o :: o in EnumGroup ==> IsUpperWord(o.key)
  {
    assert IsUpperWord("EQ") && IsUpperWord("LT") && IsUpperWord("LE") && IsUpperWord("GT");
    assert IsUpperWord("GE") && IsUpperWord("LIKE") && IsUpperWord("LLIKE") && IsUpperWord("RLIKE");
  }

  /** With distinct keys, the first operator carrying the key of `ops[i]` is `ops[i]` itself. */
  lemma {:induction false} FirstWithOwnKey(ops: seq<Operator>, i: nat)
    requires i < |ops|
    requires forall a, b :: 0 <= a < b < |ops| ==> ops[a].key != ops[b].key
    ensures FirstWithKey(ops, Some(ops[i].key)) == Some(ops[i])
  {
    if i > 0 {
      assert ops[0].key != ops[i].key;
      FirstWithOwnKey(ops[1..], i - 1);
    }
  }

  /** Every operator is found again from its own key. */
  lemma LookupRoundTrip(o: Operator)
    requires o in EnumGroup
    ensures Lookup(Some(o.key)) == Some(o)
  {
    KeysAreUpperWords();
    UpperWordIsNormal(o.key);
    KeysDistinct();
    var i :| 0 <= i < |EnumGroup| && EnumGroup[i] == o;
    FirstWithOwnKey(EnumGroup, i);
  }

  lemma NormalizeSpacedLowerEq()
    ensures Normalize(Some(" eq ")) == Some("EQ")
  {
    assert " eq "[1..] == "eq ";
    assert Ascii.TrimStart(" eq ") == "eq ";
    assert "eq "[..2] == "eq";
    assert Ascii.TrimEnd("eq ") == "eq";
    assert Ascii.ToUpper("eq") == "EQ";
  }

  /** Surrounding blanks and lower case do not matter. */
  lemma LookupIgnoresBlanksAndCase()
    ensures Lookup(Some(" eq ")) == Some(EQ)
  {
    NormalizeSpacedLowerEq();
    LookupRoundTrip(EQ);
  }

  /** An unknown name and null find nothing. */
  lemma LookupMisses()
    ensures Lookup(Some("NE")) == None
    ensures Lookup(None) == None
  {
    assert IsUpperWord("NE");
    UpperWordIsNormal("NE");
    forall o | o in EnumGroup
      ensures o.key != "NE"
    {
      assert o.key[0] != 'N';
    }
  }

  /** The keys separated by commas, with no trailing comma. */
  function Join(ks: seq<string>): string {
    if |ks| == 0 then ""
    else if |ks| == 1 then ks[0]
    else Join(ks[..|ks| - 1]) + "," + ks[|ks| - 1]
  }

  /** Every key followed by a comma: what the builder holds before the last comma is deleted. */
  function Terminated(ks: seq<string>): string {
    if ks == [] then "" else Terminated(ks[..|ks| - 1]) + ks[|ks| - 1] + ","
  }

  /** StringBuilder.lastIndexOf for one character: its last position, or -1. */
  function LastIndexOf(s: string, c: char): (i: int)
    ensures -1 <= i < |s|
    ensures i >= 0 ==> s[i] == c && forall j :: i < j < |s| ==> s[j] != c
    ensures i == -1 <==> c !in s
  {
    if s == [] then -1
    else if s[|s| - 1] == c then |s| - 1
    else LastIndexOf(s[..|s| - 1], c)
  }

  /** Cutting a comma-joined string at its commas, from the right, as `lastIndexOf` finds them. */
  function Split(s: string): (parts: seq<string>)
    ensures parts != []
    decreases |s|
  {
    var i := LastIndexOf(s, ',');
    if i < 0 then [s] else Split(s[..i]) + [s[i + 1..]]
  }

  lemma {:induction false} TerminatedIsJoinWithComma(ks: seq<string>)
    requires ks != []
    ensures Terminated(ks) == Join(ks) + ","
  {
    if |ks| > 1 {
      TerminatedIsJoinWithComma(ks[..|ks| - 1]);
    }
  }

  /** Splitting the joined keys at the commas gives the keys back, when no key holds a comma. */
  lemma {:induction false} SplitJoin(ks: seq<string>)
    requires ks != []
    requires forall i :: 0 <= i < |ks| ==> ',' !in ks[i]
    ensures Split(Join(ks)) == ks
  {
    if |ks| == 1 {
      assert LastIndexOf(ks[0], ',') == -1;
    } else {
      var init := ks[..|ks| - 1];
      var s := Join(ks);
      var n := |Join(init)|;
      assert s == Join(init) + "," + ks[|ks| - 1];
      assert s[n] == ',';
      assert forall j :: n < j < |s| ==> s[j] == ks[|ks| - 1][j - n - 1];
      assert LastIndexOf(s, ',') == n;
      assert s[..n] == Join(init);
      assert s[n + 1..] == ks[|ks| - 1];
      SplitJoin(init);
      assert init + [ks[|ks| - 1]] == ks;
    }
  }

  /** Appending one key to a non-empty list adds a comma and the key. */
  lemma JoinSnoc(ks: seq<string>, k: string)
    requires ks != []
    ensures Join(ks + [k]) == Join(ks) + "," + k
  {
    assert (ks + [k])[..|ks|] == ks;
  }

  /** The joined list, spelt out. */
  lemma JoinedKeys()
    ensures Join(Keys(EnumGroup)) == "EQ,LT,LE,GT,GE,LIKE,LLIKE,RLIKE"
  {
    var p1 := ["EQ"];
    var p2 := p1 + ["LT"];
    JoinSnoc(p1, "LT");
    assert Join(p2) == "EQ,LT";
    var p3 := p2 + ["LE"];
    JoinSnoc(p2, "LE");
    assert Join(p3) == "EQ,LT,LE";
    var p4 := p3 + ["GT"];
    JoinSnoc(p3, "GT");
    assert Join(p4) == "EQ,LT,LE,GT";
    var p5 := p4 + ["GE"];
    JoinSnoc(p4, "GE");
    assert Join(p5) == "EQ,LT,LE,GT,GE";
    var p6 := p5 + ["LIKE"];
    JoinSnoc(p5, "LIKE");
    assert Join(p6) == "EQ,LT,LE,GT,GE,LIKE";
    var p7 := p6 + ["LLIKE"];
    JoinSnoc(p6, "LLIKE");
    assert Join(p7) == "EQ,LT,LE,GT,GE,LIKE,LLIKE";
    var p8 := p7 + ["RLIKE"];
    JoinSnoc(p7, "RLIKE");
    assert p8 == Keys(EnumGroup);
  }

  /** joinName: appends every key and a comma, then deletes the last comma. */
  method JoinName() returns (s: string)
    ensures s == Join(Keys(EnumGroup))
    ensures Split(s) == Keys(EnumGroup)
  {
    var builder := "";
    for i := 0 to |EnumGroup|
      invariant builder == Terminated(Keys(EnumGroup[..i]))
    {
      assert Keys(EnumGroup[..i + 1])[..i] == Keys(EnumGroup[..i]);
      builder := builder + EnumGroup[i].key + ",";
    }
    assert EnumGroup[..|EnumGroup|] == EnumGroup;
    TerminatedIsJoinWithComma(Keys(EnumGroup));
    var at := LastIndexOf(builder, ',');
    assert at == |builder| - 1;
    s := builder[..at] + builder[at + 1..];
    assert s == Join(Keys(EnumGroup));
    KeysAreUpperWords();
    SplitJoin(Keys(EnumGroup));
  }
}
