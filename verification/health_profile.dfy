/** The health-profile form: its state is an object of sections, each an object of fields, some
    of which are lists of entries (family history, conditions, medications, allergies). Entries
    are added trimmed and removed by position. */
module HealthProfile {
  import opened Common
  import opened JsText

  /** The form state: section name to its fields. */
  type Form = map<string, map<string, Json>>

  /** `profile[section][field]` exists and is a list; the form calls the list editors only on
      such fields, and elsewhere the source's spread or `filter` throws. */
  predicate HasList(form: Form, section: string, field: string) {
    section in form && field in form[section] && form[section][field].JArr?
  }

  /** `form` and `r` agree everywhere except possibly on `r[section][field]`, which is a list. */
  predicate OnlyListChanged(form: Form, r: Form, section: string, field: string)
    requires HasList(form, section, field)
  {
    && r.Keys == form.Keys
    && (forall s :: s in form && s != section ==> r[s] == form[s])
    && r[section].Keys == form[section].Keys
    && (forall f :: f in form[section] && f != field ==> r[section][f] == form[section][f])
    && r[section][field].JArr?
  }

  /** The entries of `items` whose position differs from `index`, in order:
      `items.filter((_, i) => i !== index)`, walked from the end. */
  function WithoutIndex(items: seq<Json>, index: int): (r: seq<Json>)
    ensures |r| <= |items|
  {
    if items == [] then []
    else
      var n := |items| - 1;
      WithoutIndex(items[..n], index) + (if n != index then [items[n]] else [])
  }

  /** The filter removes exactly the entry at `index` and keeps the others in order; an index
      outside the list removes nothing. */
  lemma {:induction false} WithoutIndexIs(items: seq<Json>, index: int)
    ensures 0 <= index < |items| ==> WithoutIndex(items, index) == items[..index] + items[index + 1..]
    ensures !(0 <= index < |items|) ==> WithoutIndex(items, index) == items
  {
    if items != [] {
      var n := |items| - 1;
      WithoutIndexIs(items[..n], index);
      assert items[..n] + [items[n]] == items;
      if index == n {
        assert items[..index] + items[index + 1..] == items[..n];
      } else if 0 <= index < n {
        assert items[..n][..index] == items[..index];
        assert items[..n][index + 1..] + [items[n]] == items[index + 1..];
      }
    }
  }

  /** `{...profile, [section]: {...profile[section], [field]: items}}`. */
  function SetList(form: Form, section: string, field: string, items: seq<Json>): (r: Form)
    requires HasList(form, section, field)
    ensures OnlyListChanged(form, r, section, field) && r[section][field] == JArr(items)
  {
    form[section := form[section][field := JArr(items)]]
  }

  /** `addArrayItem`: a blank value leaves the form as it is; any other value is appended,
      trimmed, to the end of the list, and nothing else changes. */
  function AddArrayItem(form: Form, section: string, field: string, value: string): (r: Form)
    requires HasList(form, section, field)
    ensures Trim(value) == [] ==> r == form
    ensures Trim(value) != [] ==> (OnlyListChanged(form, r, section, field)
              && r[section][field].items == form[section][field].items + [JStr(Trim(value))])
  {
    var v := Trim(value);
    if v == [] then form
    else SetList(form, section, field, form[section][field].items + [JStr(v)])
  }

  /** `removeArrayItem`: the list loses exactly its entry at `index` (none when the index is
      outside it), the other entries keep their order, and nothing else changes. */
  function RemoveArrayItem(form: Form, section: string, field: string, index: int): (r: Form)
    requires HasList(form, section, field)
    ensures OnlyListChanged(form, r, section, field)
    ensures var items := form[section][field].items;
            r[section][field].items == if 0 <= index < |items| then items[..index] + items[index + 1..] else items
  {
    var items := form[section][field].items;
    WithoutIndexIs(items, index);
    SetList(form, section, field, WithoutIndex(items, index))
  }

  /** Removing the entry just added, at the end of the list, gives back the form as it was. */
  lemma RemoveUndoesAdd(form: Form, section: string, field: string, value: string)
    requires HasList(form, section, field) && Trim(value) != []
    ensures RemoveArrayItem(AddArrayItem(form, section, field, value), section, field,
                            |form[section][field].items|) == form
  {
    var items := form[section][field].items;
    var n := |items|;
    var f1 := AddArrayItem(form, section, field, value);
    var r := RemoveArrayItem(f1, section, field, n);
    assert r[section][field] == form[section][field] by {
      var added := f1[section][field].items;
      assert added == items + [JStr(Trim(value))];
      assert added[..n] + added[n + 1..] == items;
    }
    assert OnlyListChanged(form, r, section, field);
    SameListSameForm(form, r, section, field);
  }

  /** A form that differs at most in one list, and not there either, is the same form. */
  lemma SameListSameForm(form: Form, r: Form, section: string, field: string)
    requires HasList(form, section, field) && OnlyListChanged(form, r, section, field)
    requires r[section][field] == form[section][field]
    ensures r == form
  {
    assert r[section] == form[section];
  }

  /** A remove at an index outside the list changes nothing. */
  lemma RemoveOutsideIsNoOp(form: Form, section: string, field: string, index: int)
    requires HasList(form, section, field) && !(0 <= index < |form[section][field].items|)
    ensures RemoveArrayItem(form, section, field, index) == form
  {
    SameListSameForm(form, RemoveArrayItem(form, section, field, index), section, field);
  }
}
