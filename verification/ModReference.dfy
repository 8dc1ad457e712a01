/**
 Mod references: API ids and the directory names that denote the same mods.
 */
module ModReference {
  import opened Wrappers

  datatype Source = Workshop | Local

  datatype Reference = Reference(id: string, source: Source, directoryName: string)

  const WORKSHOP_PREFIX := "workshop-"
  const LOCAL_PREFIX := "local:"

  predicate AllDigits(s: string) {
    forall i :: 0 <= i < |s| ==> '0' <= s[i] <= '9'
  }

  /** Bytes of the UTF-8 form. */
  function Utf8Length(s: string): nat {
    if s == [] then 0
    else
      var n := s[0] as int;
      (if n < 0x80 then 1 else if n < 0x800 then 2 else if n < 0x1_0000 then 3 else 4) + Utf8Length(s[1..])
  }

  /** 1 to 20 digits: a character that is not one byte long is not a digit. */
  predicate ValidWorkshopID(id: string) {
    1 <= |id| <= 20 && AllDigits(id)
  }

  predicate IsControl(c: char) {
    var n := c as int;
    n < 0x20 || 0x7F <= n < 0xA0
  }

  predicate ValidModDirectory(name: string) {
    && name != "" && name != "." && name != ".." && Utf8Length(name) <= 255
    && '/' !in name && '\\' !in name && ':' !in name
    && forall i :: 0 <= i < |name| ==> !IsControl(name[i])
  }

  function CutPrefix(s: string, prefix: string): Option<string> {
    if prefix <= s then Some(s[|prefix|..]) else None
  }

  function ModReferenceFromKey(key: string): Option<Reference> {
    var id := CutPrefix(key, WORKSHOP_PREFIX);
    if id.Some? && ValidWorkshopID(id.value) then Some(Reference(id.value, Workshop, key))
    else if !ValidModDirectory(key) then None
    else Some(Reference(LOCAL_PREFIX + key, Local, key))
  }

  function Reread(name: string): Option<Reference> {
    var r := ModReferenceFromKey(name);
    if r.None? || r.value.source != Local then None else r
  }

  function Parse(id: string): Option<Reference> {
    if ValidWorkshopID(id) then Some(Reference(id, Workshop, WORKSHOP_PREFIX + id))
    else
      var name := CutPrefix(id, LOCAL_PREFIX);
      if name.Some? then Reread(name.value)
      // Bare numeric input, of any length, never names a local mod.
      else if id != "" && AllDigits(id) then None
      else Reread(id)
  }

  /** ParseModReference, scanning bare input for digits. */
  method ParseModReference(id: string) returns (r: Option<Reference>)
    ensures r == Parse(id)
  {
    if ValidWorkshopID(id) {
      return Some(Reference(id, Workshop, WORKSHOP_PREFIX + id));
    }
    var cut := CutPrefix(id, LOCAL_PREFIX);
    var name := if cut.Some? then cut.value else id;
    if cut.None? {
      var allDigits := name != "";
      for i := 0 to |name|
        invariant allDigits <==> name != "" && AllDigits(name[..i])
      {
        assert name[..i + 1] == name[..i] + [name[i]];
        allDigits := allDigits && '0' <= name[i] <= '9';
      }
      assert name[..|name|] == name;
      if allDigits {
        return None;
      }
    }
    r := ModReferenceFromKey(name);
    if r.None? || r.value.source != Local {
      return None;
    }
  }

  /** A reference either reader can produce. */
  predicate Known(r: Reference) {
    ModReferenceFromKey(r.directoryName) == Some(r)
  }

  lemma LocalIdIsNotNumeric(key: string)
    ensures !ValidWorkshopID(LOCAL_PREFIX + key) && CutPrefix(LOCAL_PREFIX + key, LOCAL_PREFIX) == Some(key)
  {
    assert (LOCAL_PREFIX + key)[0] == 'l';
    assert (LOCAL_PREFIX + key)[|LOCAL_PREFIX|..] == key;
  }

  lemma WorkshopKeyRereads(id: string)
    requires ValidWorkshopID(id)
    ensures ModReferenceFromKey(WORKSHOP_PREFIX + id) == Some(Reference(id, Workshop, WORKSHOP_PREFIX + id))
  {
    assert (WORKSHOP_PREFIX + id)[|WORKSHOP_PREFIX|..] == id;
  }

  /** Whatever is accepted, as a directory name or as an id, reads back the same both ways. */
  lemma ReadsBack(text: string, r: Reference)
    requires ModReferenceFromKey(text) == Some(r) || Parse(text) == Some(r)
    ensures ModReferenceFromKey(r.directoryName) == Some(r) && Parse(r.id) == Some(r)
  {
    if ValidWorkshopID(text) && Parse(text) == Some(r) {
      WorkshopKeyRereads(text);
    }
    if r.source.Local? {
      LocalIdIsNotNumeric(r.directoryName);
    } else if text != r.id {
      assert text == WORKSHOP_PREFIX + r.id;
    }
  }

  /** Among known references, ids and directory names determine each other. */
  lemma Bijection(r: Reference, q: Reference)
    requires Known(r) && Known(q)
    ensures r.id == q.id <==> r.directoryName == q.directoryName
    ensures r.id == q.id ==> r == q
  {
    ReadsBack(r.directoryName, r);
    ReadsBack(q.directoryName, q);
  }

  /** An id written "local:..." never denotes a workshop mod, and digits never a local one. */
  lemma SourcesApart(name: string, r: Reference)
    ensures Parse(LOCAL_PREFIX + name) == Some(r) ==> r.source == Local && r.directoryName == name
    ensures AllDigits(name) && Parse(name) == Some(r) ==> r.source == Workshop && r.id == name
  {
    LocalIdIsNotNumeric(name);
  }
}
