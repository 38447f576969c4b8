/** The settings schema builder in place: fixed arrays, memmove in the option pool, offsets re-based.
    Each frame handler is proved to take exactly the step of the list-of-lists machine. */
module SettingsBuilder {
  import opened Basics
  import opened SettingsPool
  import opened SettingsStream

  predicate NulFree(f: Frame) {
    match f
    case Item(_, _, id, _, title, group, unit, _) =>
      (id.Some? ==> '\0' !in id.value) && '\0' !in title && (group.Some? ==> '\0' !in group.value) && '\0' !in unit
    case OptionItem(_, _, text) => '\0' !in text
    case _ => true
  }

  class SchemaStream {
    const chars: array<char>
    const options: array<EnumOption>
    const descs: array<Desc>
    const declared: array<Option<nat>>
    var used: nat
    var optionCount: nat
    var count: nat
    var active: bool
    var expected: nat

    ghost predicate Bounded()
      reads this
    {
      && chars.Length == POOL_SIZE && options.Length == MAX_OPTIONS && descs.Length == MAX_SETTINGS && declared.Length == MAX_SETTINGS
      && used <= POOL_SIZE && optionCount <= MAX_OPTIONS && count <= MAX_SETTINGS
    }

    ghost function View(): Schema
      requires Bounded()
      reads this, chars, options, descs, declared
    {
      Schema(descs[..count], declared[..count], options[..optionCount], chars[..used])
    }

    ghost predicate Valid()
      reads this, chars, options, descs, declared
    {
      Bounded() && (active ==> WellFormed(View()) && count <= expected <= MAX_SETTINGS)
    }

    /** The stream as the simple machine sees it. */
    ghost function Abstract(): State
      requires Valid()
      reads this, chars, options, descs, declared
    {
      if active then Collecting(expected, used, Meaning(View())) else State.Idle
    }

    constructor ()
      ensures Valid() && Abstract() == State.Idle
      ensures fresh(chars) && fresh(options) && fresh(descs) && fresh(declared)
    {
      chars := new char[POOL_SIZE](i => '\0');
      options := new EnumOption[MAX_OPTIONS](i => EnumOption(0, 0));
      descs := new Desc[MAX_SETTINGS](i => Desc(0, 0, 0, 0, 0, 0, 0));
      declared := new Option<nat>[MAX_SETTINGS](i => None);
      used, optionCount, count, active, expected := 0, 0, 0, false, 0;
    }

    /** handle_begin. */
    method HandleBegin(f: Frame)
      requires Valid() && f.Begin?
      modifies this, chars
      ensures Valid() && Abstract() == Step(old(Abstract()), f)
    {
      if !f.wellFormed || f.total > MAX_SETTINGS || active { return; }
      chars[0], chars[1], chars[2], chars[3] := '\0', '\0', '\0', '\0';
      used, optionCount, count, expected, active := 4, 0, 0, f.total, true;
      assert Meaning(View()) == [];
    }

    /** ds_string_pool_add. */
    method AddString(s: string) returns (off: Option<nat>)
      requires Bounded() && '\0' !in s
      modifies this`used, chars
      ensures Bounded()
      ensures off == if old(used) + Footprint(s) <= POOL_SIZE then Some(old(used)) else None
      ensures off.None? ==> used == old(used) && chars[..] == old(chars[..])
      ensures off.Some? ==> used == old(used) + Footprint(s) && old(chars[..used]) <= chars[..used]
                            && CString(chars[..used], off.value) == s && Terminated(chars[..used], off.value)
    {
      var aligned := Footprint(s);
      if used + aligned > POOL_SIZE { return None; }
      ghost var was := chars[..used];
      CopyIn(s);
      ghost var now := chars[..used + aligned];
      assert now == now[..used] + now[used..used + |s|] + now[used + |s|..];
      assert now[..used] == was && now[used..used + |s|] == s;
      StringAdded(was, s, now[used + |s|..]);
      off := Some(used);
      used := used + aligned;
    }

    /** The copy past the used part, with its NUL. */
    method CopyIn(s: string)
      requires Bounded() && used + |s| < POOL_SIZE
      modifies chars
      ensures chars[..used] == old(chars[..used]) && chars[used..used + |s|] == s && chars[used + |s|] == '\0'
    {
      for i := 0 to |s|
        invariant chars[..used] == old(chars[..used])
        invariant chars[used..used + i] == s[..i]
      {
        chars[used + i] := s[i];
      }
      chars[used + |s|] := '\0';
    }

    /** A string that may be empty: an empty one is not stored and reads through `absent` instead. */
    method AddOptional(s: string, absent: nat) returns (off: Option<nat>)
      requires Bounded() && '\0' !in s && Terminated(chars[..used], absent)
      modifies this`used, chars
      ensures Bounded()
      ensures off.Some? <==> old(used) + OptionalFootprint(s) <= POOL_SIZE
      ensures off.Some? ==> used == old(used) + OptionalFootprint(s) && old(chars[..used]) <= chars[..used]
                            && Reads(chars[..used], off.value, if s == "" then old(CString(chars[..used], absent)) else s)
    {
      if s == "" { return Some(absent); }
      off := AddString(s);
    }

    /** The up to four strings of an item, in order; absent title means the id, absent group and unit mean offset 0. */
    method AddItemStrings(f: Frame) returns (d: Option<Desc>)
      requires Bounded() && f.Item? && f.id.Some? && f.kind.Some? && NulFree(f) && used >= 1 && chars[0] == '\0'
      modifies this`used, chars
      ensures Bounded()
      ensures d.Some? <==> old(used) + ItemBytes(f) <= POOL_SIZE
      ensures d.Some? ==> used == old(used) + ItemBytes(f) && old(chars[..used]) <= chars[..used] && ItemStrings(f, d.value, chars[..used])
      ensures d.Some? ==> d.value.kind == f.kind.value && d.value.optionCount == 0 && d.value.optionIndex == optionCount
    {
      ghost var c0 := chars[..used];
      assert Reads(c0, 0, "");
      var idOff := AddString(f.id.value);
      if idOff.None? { return None; }
      ghost var c1 := chars[..used];
      var titleOff := AddOptional(f.title, idOff.value);
      if titleOff.None? { return None; }
      ghost var c2 := chars[..used];
      ReadsGrown(c0, c2, 0, "");
      var groupOff := AddOptional(if f.group.Some? then f.group.value else "", 0);
      if groupOff.None? { return None; }
      ghost var c3 := chars[..used];
      ReadsGrown(c0, c3, 0, "");
      var unitOff := AddOptional(f.unit, 0);
      if unitOff.None? { return None; }
      ghost var c4 := chars[..used];
      ReadsGrown(c1, c4, idOff.value, f.id.value);
      ReadsGrown(c2, c4, titleOff.value, if f.title == "" then f.id.value else f.title);
      ReadsGrown(c3, c4, groupOff.value, GroupOf(f));
      return Some(Desc(idOff.value, titleOff.value, groupOff.value, unitOff.value, f.kind.value, 0, optionCount));
    }

    /** ds_schema_builder_add_setting. */
    method AppendSetting(d: Desc, decl: Option<nat>, ghost before: seq<Setting>, ghost f: Frame)
      requires Bounded() && WellFormed(View()) && count < MAX_SETTINGS && Meaning(View()) == before
      requires f.Item? && f.id.Some? && f.kind.Some? && decl == f.declared && ItemStrings(f, d, chars[..used])
      requires d.kind == f.kind.value && d.optionCount == 0 && d.optionIndex == optionCount
      modifies this`count, descs, declared
      ensures Bounded() && WellFormed(View()) && count == old(count) + 1
      ensures Meaning(View()) == before + [NewSetting(f)]
    {
      ghost var x := View();
      descs[count] := d;
      declared[count] := decl;
      count := count + 1;
      assert View() == x.(descs := x.descs + [d], declared := x.declared + [decl]) by {
        assert descs[..count] == x.descs + [d] && declared[..count] == x.declared + [decl];
      }
      ItemAdded(x, d, f);
    }

    /** The checks of handle_item that precede any change. */
    method CheckItem(f: Frame) returns (ok: bool)
      requires Valid() && active && f.Item?
      ensures ok ==> f.id.Some? && f.kind.Some?
      ensures !ok ==> !ItemAccepted(Abstract(), f)
      ensures ok ==> (ItemAccepted(Abstract(), f) <==>
                      used + ItemBytes(f) <= POOL_SIZE
                      && (f.declared.Some? ==> f.declared.value <= MAX_ENUM_OPTS && f.kind.value == TYPE_ENUM))
      ensures ok ==> count < expected
    {
      if f.itemTotal.None? || f.sequence.None? || f.id.None? || f.id.value == "" || f.kind.None?
         || f.kind.value < TYPE_BOOL || f.kind.value > TYPE_ENUM
         || f.itemTotal.value != expected || count >= expected || f.sequence.value != count {
        return false;
      }
      var duplicate := HasSetting(f.id.value);
      return !duplicate;
    }

    /** handle_item. */
    method HandleItem(f: Frame)
      requires Valid() && f.Item? && NulFree(f)
      modifies this, chars, descs, declared
      ensures Valid() && Abstract() == Step(old(Abstract()), f)
    {
      if !active { return; }
      var ok := CheckItem(f);
      if !ok {
        active := false;
        return;
      }
      ok := StoreItem(f);
      if !ok { active := false; }
    }

    /** The part of handle_item that changes the builder. */
    method StoreItem(f: Frame) returns (ok: bool)
      requires Bounded() && WellFormed(View()) && count < MAX_SETTINGS
      requires f.Item? && f.id.Some? && f.kind.Some? && NulFree(f)
      modifies this`used, this`count, chars, descs, declared
      ensures Bounded()
      ensures ok <==> old(used) + ItemBytes(f) <= POOL_SIZE
                      && (f.declared.Some? ==> f.declared.value <= MAX_ENUM_OPTS && f.kind.value == TYPE_ENUM)
      ensures ok ==> WellFormed(View()) && count == old(count) + 1 && used == old(used) + ItemBytes(f)
                     && Meaning(View()) == old(Meaning(View())) + [NewSetting(f)]
    {
      ghost var x := View();
      assert chars[0] == x.chars[0];
      var d := AddItemStrings(f);
      if d.None? || (f.declared.Some? && (f.declared.value > MAX_ENUM_OPTS || f.kind.value != TYPE_ENUM)) {
        return false;
      }
      assert View() == x.(chars := chars[..used]);
      GrownWellFormed(x, chars[..used]);
      AppendSetting(d.value, f.declared, Meaning(x), f);
      return true;
    }

    /** The duplicate-id scan of handle_item. */
    method HasSetting(id: string) returns (r: bool)
      requires Valid() && active
      ensures r <==> exists i :: 0 <= i < count && Meaning(View())[i].id == id
    {
      ghost var m := Meaning(View());
      for i := 0 to count
        invariant forall j :: 0 <= j < i ==> m[j].id != id
      {
        assert m[i].id == CString(chars[..used], descs[..count][i].idOff);
        var existing := CString(chars[..used], descs[i].idOff);
        if existing == id { return true; }
      }
      return false;
    }

    /** The duplicate-value scan of handle_option_item. */
    method HasOption(k: nat, value: nat) returns (r: bool)
      requires Valid() && active && k < count
      ensures r <==> exists i :: 0 <= i < |Meaning(View())[k].options| && Meaning(View())[k].options[i].value == value
    {
      ghost var opts := Meaning(View())[k].options;
      var p := descs[k];
      assert View().descs[k] == p && Fits(p, View().pool);
      for i := 0 to p.optionCount
        invariant forall j :: 0 <= j < i ==> opts[j].value != value
      {
        assert opts[i] == OptOf(Slice(p, View().pool)[i], chars[..used]);
        assert Slice(p, View().pool)[i] == options[p.optionIndex + i];
        if options[p.optionIndex + i].value == value {
          assert opts[i].value == value;
          return true;
        }
      }
      return false;
    }

    /** Append at the pool's end, then move the new entry to its parent's tail. */
    method InsertOption(k: nat, o: EnumOption)
      requires Bounded() && k < count && optionCount < MAX_OPTIONS
      requires InsertAt(descs[..count], options[..optionCount], k) <= optionCount
      modifies this`optionCount, options, descs
      ensures Bounded()
      ensures options[..optionCount] == Inserted(old(options[..optionCount]), InsertAt(old(descs[..count]), old(options[..optionCount]), k), o)
      ensures descs[..count] == ShiftAll(old(descs[..count]), k, InsertAt(old(descs[..count]), old(options[..optionCount]), k), old(optionCount))
    {
      ghost var pool := options[..optionCount];
      var slot := optionCount;
      options[slot] := o;
      optionCount := optionCount + 1;
      var parent := descs[k];
      var at := if parent.optionCount == 0 then slot else parent.optionIndex + parent.optionCount;
      MoveToTail(slot, at);
      assert options[..optionCount] == Inserted(pool, at, o);
      RebaseOffsets(k, at, slot);
    }

    /** The memmove. */
    method MoveToTail(slot: nat, at: nat)
      requires Bounded() && at <= slot < optionCount
      modifies options
      ensures options[..slot + 1] == old(options[..at]) + [old(options[slot])] + old(options[at..slot])
    {
      ghost var was := options[..];
      var appended := options[slot];
      var j := slot;
      while j > at
        invariant at <= j <= slot
        invariant options[..j] == was[..j]
        invariant forall i :: j < i <= slot ==> options[i] == was[i - 1]
      {
        options[j] := options[j - 1];
        j := j - 1;
      }
      options[at] := appended;
    }

    /** Later spans move up by one; the parent's span grows. */
    method RebaseOffsets(k: nat, at: nat, slot: nat)
      requires Bounded() && k < count
      modifies descs
      ensures descs[..count] == ShiftAll(old(descs[..count]), k, at, slot)
    {
      ghost var was := descs[..count];
      for i := 0 to count
        invariant forall j :: 0 <= j < i ==> descs[j] == if j == k then was[j] else Shifted(was[j], false, at, slot)
        invariant forall j :: i <= j < count ==> descs[j] == was[j]
      {
        if at < slot && i != k && descs[i].optionCount > 0 && descs[i].optionIndex >= at {
          descs[i] := descs[i].(optionIndex := descs[i].optionIndex + 1);
        }
      }
      if descs[k].optionCount == 0 { descs[k] := descs[k].(optionIndex := at); }
      descs[k] := descs[k].(optionCount := descs[k].optionCount + 1);
    }

    /** The checks of handle_option_item that precede any change. */
    method CheckOption(f: Frame) returns (ok: bool)
      requires Valid() && active && f.OptionItem?
      ensures ok ==> f.parent.Some? && f.value.Some? && f.parent.value < count && descs[f.parent.value].optionCount < MAX_ENUM_OPTS
      ensures !ok ==> !OptionAccepted(Abstract(), f)
      ensures ok ==> (OptionAccepted(Abstract(), f) <==> used + Footprint(f.text) <= POOL_SIZE)
    {
      if f.parent.None? || f.value.None? || f.text == "" || f.parent.value >= count { return false; }
      var k := f.parent.value;
      ghost var x := View();
      assert Meaning(x)[k] == SettingOf(x.descs[k], x.declared[k], x.pool, x.chars) && x.descs[k] == descs[k];
      if descs[k].kind != TYPE_ENUM || descs[k].optionCount >= MAX_ENUM_OPTS { return false; }
      var duplicate := HasOption(k, f.value.value);
      return !duplicate;
    }

    /** handle_option_item. */
    method HandleOption(f: Frame)
      requires Valid() && f.OptionItem? && NulFree(f)
      modifies this, chars, options, descs
      ensures Valid() && Abstract() == Step(old(Abstract()), f)
    {
      if !active { return; }
      var ok := CheckOption(f);
      if !ok {
        active := false;
        return;
      }
      ghost var a := Abstract();
      assert a.settings == Meaning(View());
      ok := StoreOption(f.parent.value, f.value.value, f.text);
      OptionStep(a, f);
      if !ok { active := false; }
    }

    /** ds_schema_builder_add_enum_option and the move to the parent's tail. */
    method StoreOption(k: nat, value: nat, text: string) returns (ok: bool)
      requires Bounded() && WellFormed(View()) && k < count && descs[k].optionCount < MAX_ENUM_OPTS && '\0' !in text
      modifies this`used, this`optionCount, chars, options, descs
      ensures Bounded()
      ensures ok <==> old(used) + Footprint(text) <= POOL_SIZE
      ensures ok ==> WellFormed(View()) && used == old(used) + Footprint(text)
      ensures ok ==> var m := old(Meaning(View())); Meaning(View()) == m[k := WithOption(m[k], Opt(value, text))]
    {
      ghost var x := View();
      assert x.descs[k] == descs[k];
      var off := AddString(text);
      if off.None? { return false; }
      var o := EnumOption(value, off.value);
      ghost var y := x.(chars := chars[..used]);
      assert View() == y;
      GrownWellFormed(x, chars[..used]);
      OptionRefines(y, k, o);
      InsertOption(k, o);
      assert View() == AfterOption(y, k, o);
      return true;
    }

    /** Every declared option count equals the number of options received. */
    method DeclaredMet() returns (met: bool)
      requires Valid() && active
      ensures met <==> var m := Meaning(View()); forall j :: 0 <= j < |m| && m[j].declared.Some? ==> m[j].declared.value == |m[j].options|
    {
      ghost var m := Meaning(View());
      for i := 0 to count
        invariant forall j :: 0 <= j < i && m[j].declared.Some? ==> m[j].declared.value == |m[j].options|
      {
        assert m[i] == SettingOf(descs[..count][i], declared[..count][i], options[..optionCount], chars[..used]);
        if declared[i].Some? && declared[i].value != descs[i].optionCount { return false; }
      }
      return true;
    }

    /** handle_end: the committed snapshot, if any, means exactly the collected list. */
    method HandleEnd(f: Frame) returns (schema: Option<Schema>)
      requires Valid() && f.End?
      modifies this`active
      ensures Valid() && Abstract() == Step(old(Abstract()), f)
      ensures schema.Some? <==> Commits(old(Abstract()), f).Some?
      ensures schema.Some? ==> WellFormed(schema.value) && Some(Meaning(schema.value)) == Commits(old(Abstract()), f)
    {
      if !active { return None; }
      if f.endTotal.None? || f.endTotal.value != expected || count != expected {
        active := false;
        return None;
      }
      var met := DeclaredMet();
      if !met {
        active := false;
        return None;
      }
      schema := Some(Schema(descs[..count], declared[..count], options[..optionCount], chars[..used]));
      active := false;
    }
  }

  /** Offset `off` reads s. */
  ghost predicate Reads(chars: seq<char>, off: nat, s: string) { CString(chars, off) == s && Terminated(chars, off) }

  lemma {:induction false} ReadsGrown(a: seq<char>, b: seq<char>, off: nat, s: string)
    requires a <= b && Reads(a, off, s)
    ensures Reads(b, off, s)
  {
    StringGrown(a, b, off);
  }

  /** A descriptor whose strings read as the frame's adds the frame's setting. */
  lemma {:induction false} ItemAdded(x: Schema, d: Desc, f: Frame)
    requires WellFormed(x) && |x.descs| < MAX_SETTINGS && f.Item? && f.id.Some? && f.kind.Some? && ItemStrings(f, d, x.chars)
    requires d.kind == f.kind.value && d.optionCount == 0 && d.optionIndex == |x.pool|
    ensures var y := x.(descs := x.descs + [d], declared := x.declared + [f.declared]);
            WellFormed(y) && Meaning(y) == Meaning(x) + [NewSetting(f)]
  {
    ItemRefines(x, d, f.declared);
  }

  lemma {:induction false} OptionStep(s: State, f: Frame)
    requires s.Collecting? && f.OptionItem?
    ensures !OptionAccepted(s, f) ==> Step(s, f) == State.Idle
    ensures OptionAccepted(s, f) ==>
              var k := f.parent.value;
              Step(s, f) == Collecting(s.expected, s.used + Footprint(f.text), s.settings[k := WithOption(s.settings[k], Opt(f.value.value, f.text))])
  {
  }

  /** The four strings of a frame are what the descriptor's offsets read. */
  ghost predicate ItemStrings(f: Frame, d: Desc, chars: seq<char>)
    requires f.Item? && f.id.Some?
  {
    && Reads(chars, d.idOff, f.id.value) && Reads(chars, d.titleOff, if f.title == "" then f.id.value else f.title)
    && Reads(chars, d.groupOff, GroupOf(f)) && Reads(chars, d.unitOff, f.unit)
  }
}
