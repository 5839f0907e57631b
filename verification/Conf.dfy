/**
 The INI file of an instance (odoo.conf): inserting or replacing keys under [options], and the
 section-aware reader. Lines are strings without newline.
 */
module Conf {
  import opened Wrappers
  import opened Text

  type Lines = seq<string>

  // ---------------------------------------------------------------------------------------
  // The reader
  // ---------------------------------------------------------------------------------------

  predicate IsComment(t: string) {
    t != "" && (t[0] == '#' || t[0] == ';')
  }

  /** The reader's test for a section line. */
  predicate IsSection(t: string) {
    t != "" && t[0] == '[' && ']' in t
  }

  function Header(section: string): string {
    "[" + section + "]"
  }

  /** The value a line t (without leading white space) gives to key, if any. */
  function ValueOf(t: string, key: string): Option<string> {
    if !StartsWith(t, key) then None
    else
      var rest := TrimStart(t[|key|..]);
      if rest == "" || rest[0] != '=' then None
      else
        var v := Trim(rest[1..]);
        if v == "" then None else Some(v)
  }

  /** One turn of the reader's loop: whether it is in the section afterwards, and a value. */
  function Step(l: string, inSection: bool, section: string, key: string): (bool, Option<string>) {
    var t := TrimStart(l);
    if IsComment(t) then (inSection, None)
    else if IsSection(t) then (TrimEnd(t) == Header(section), None)
    else if !inSection then (false, None)
    else (true, ValueOf(t, key))
  }

  function Scan(ls: Lines, inSection: bool, section: string, key: string): Option<string> {
    if ls == [] then None
    else
      var (next, v) := Step(ls[0], inSection, section, key);
      if v.Some? then v else Scan(ls[1..], next, section, key)
  }

  /** Whether the reader is in the section after the lines. */
  function After(ls: Lines, inSection: bool, section: string): bool {
    if ls == [] then inSection else After(ls[1..], Step(ls[0], inSection, section, "").0, section)
  }

  /** `parse_conf_value_in_section` */
  function Read(ls: Lines, section: string, key: string): Option<string> {
    Scan(ls, false, section, key)
  }

  method ParseConfValueInSection(ls: Lines, section: string, key: string) returns (r: Option<string>)
    ensures r == Read(ls, section, key)
  {
    hide TrimStart, TrimEnd;
    var inSection := false;
    var target := "[" + section + "]";
    var i := 0;
    assert ls[0..] == ls;
    while i < |ls|
      invariant i <= |ls| && Read(ls, section, key) == Scan(ls[i..], inSection, section, key)
    {
      assert ls[i..][1..] == ls[i + 1..];
      var t := TrimStart(ls[i]);
      i := i + 1;
      if IsComment(t) {
        continue;
      }
      if IsSection(t) {
        inSection := TrimEnd(t) == target;
        continue;
      }
      if !inSection {
        continue;
      }
      if StartsWith(t, key) {
        var rest := TrimStart(t[|key|..]);
        if rest != "" && rest[0] == '=' {
          var v := Trim(rest[1..]);
          if v != "" {
            return Some(v);
          }
        }
      }
    }
    return None;
  }

  // ---------------------------------------------------------------------------------------
  // The editor
  // ---------------------------------------------------------------------------------------

  const OPTIONS: string := "options"

  predicate IsOptions(l: string) {
    Trim(l) == "[options]"
  }

  /** The editor's test for the next section. */
  predicate EndsRange(l: string) {
    var t := Trim(l);
    t != "" && t[0] == '[' && t[|t| - 1] == ']'
  }

  predicate Matches(l: string, key: string) {
    var t := TrimStart(l);
    StartsWith(t, key + " =") || StartsWith(t, key + "=")
  }

  function Target(key: string, value: string): string {
    key + " = " + value
  }

  /** The first index in from..upto whose line has the property, or upto. */
  function Position(ls: Lines, from: nat, upto: nat, p: string -> bool): (i: nat)
    requires from <= upto <= |ls|
    ensures from <= i <= upto && (i < upto ==> p(ls[i]))
    ensures forall j :: from <= j < i ==> !p(ls[j])
    decreases upto - from
  {
    if from == upto || p(ls[from]) then from else Position(ls, from + 1, upto, p)
  }

  /** The line of the [options] header, or |ls|. */
  function OptionsAt(ls: Lines): (h: nat)
    ensures h <= |ls| && (h < |ls| ==> IsOptions(ls[h]))
    ensures forall j :: 0 <= j < h ==> !IsOptions(ls[j])
  {
    Position(ls, 0, |ls|, (l: string) => IsOptions(l))
  }

  /** The end of the range of [options], whose header is at h. */
  function RangeEnd(ls: Lines, h: nat): (e: nat)
    requires h < |ls|
    ensures h < e <= |ls| && (e < |ls| ==> EndsRange(ls[e]))
    ensures forall j :: h < j < e ==> !EndsRange(ls[j])
  {
    Position(ls, h + 1, |ls|, (l: string) => EndsRange(l))
  }

  /** The first line of the range that sets the key, or the end of the range. */
  function KeyAt(ls: Lines, h: nat, key: string): (i: nat)
    requires h < |ls|
    ensures h < i <= RangeEnd(ls, h)
    ensures i < RangeEnd(ls, h) ==> Matches(ls[i], key)
    ensures forall j :: h < j < i ==> !Matches(ls[j], key)
  {
    Position(ls, h + 1, RangeEnd(ls, h), (l: string) => Matches(l, key))
  }

  /** `upsert_key` */
  function Upsert(ls: Lines, key: string, value: string): Lines {
    var h := OptionsAt(ls);
    if h == |ls| then
      ls + (if ls != [] && ls[|ls| - 1] != "" then [""] else []) + ["[options]", Target(key, value)]
    else
      var i := KeyAt(ls, h, key);
      if i < RangeEnd(ls, h) then ls[i := Target(key, value)]
      else ls[..h + 1] + [Target(key, value)] + ls[h + 1..]
  }

  class ConfFile {
    var lines: Lines

    constructor (ls: Lines)
      ensures lines == ls
    {
      lines := ls;
    }

    method UpsertKey(key: string, value: string)
      modifies this
      ensures lines == Upsert(old(lines), key, value)
    {
      hide Trim, TrimStart, TrimEnd;
      var target := key + " = " + value;
      var h := OptionsAt(lines);
      var startIdx, endIdx := |lines|, |lines|;
      if h < |lines| {
        startIdx, endIdx := h + 1, RangeEnd(lines, h);
      }
      var keyEq, keyEqTight := key + " =", key + "=";
      var i := startIdx;
      while i < endIdx
        invariant startIdx <= i <= endIdx && lines == old(lines)
        invariant h < |lines| ==> i <= KeyAt(lines, h, key)
      {
        var trimmed := TrimStart(lines[i]);
        if StartsWith(trimmed, keyEq) || StartsWith(trimmed, keyEqTight) {
          assert i == KeyAt(lines, h, key);
          lines := lines[i := target];
          return;
        }
        i := i + 1;
      }
      if h < |lines| {
        lines := lines[..h + 1] + [target] + lines[h + 1..];
      } else {
        if lines != [] && lines[|lines| - 1] != "" {
          lines := lines + [""];
        }
        lines := lines + ["[options]"];
        lines := lines + [target];
      }
    }

    /** `patch_odoo_conf`: the upserts one after the other. */
    method Patch(upserts: seq<(string, string)>)
      modifies this
      ensures lines == UpsertAll(old(lines), upserts)
    {
      assert upserts[..0] == [];
      for k := 0 to |upserts|
        invariant lines == UpsertAll(old(lines), upserts[..k])
      {
        assert upserts[..k + 1][..k] == upserts[..k];
        UpsertKey(upserts[k].0, upserts[k].1);
      }
      assert upserts[..|upserts|] == upserts;
    }
  }

  function UpsertAll(ls: Lines, upserts: seq<(string, string)>): Lines {
    if upserts == [] then ls
    else
      var (k, v) := upserts[|upserts| - 1];
      Upsert(UpsertAll(ls, upserts[..|upserts| - 1]), k, v)
  }
}
