/** components/ServiceSelector.tsx: selecting and deselecting services, the
    running totals and the rule that disables the next button. */
module ServiceSelector {
  import opened Seqs
  import opened Types

  /** `selectedServices.some(s => s.id === service.id)`. */
  predicate IsSelected(selected: seq<Service>, service: Service) {
    exists s :: s in selected && s.id == service.id
  }

  /** `selectedServices.filter(s => s.id !== id)`. */
  function WithoutServiceId(selected: seq<Service>, id: int): (r: seq<Service>)
    ensures IsSubsequence(r, selected)
    ensures forall s :: s in r <==> s in selected && s.id != id
  {
    if selected == [] then []
    else if selected[0].id == id then
      var r := WithoutServiceId(selected[1..], id);
      assert r != [] ==> r[0] in r;
      r
    else
      assert selected == [selected[0]] + selected[1..];
      [selected[0]] + WithoutServiceId(selected[1..], id)
  }

  /** `selectedServices.filter(s => s.id === id)`: the entries a deselection removes. */
  function OnlyServiceId(selected: seq<Service>, id: int): (r: seq<Service>)
    ensures forall s :: s in r <==> s in selected && s.id == id
  {
    if selected == [] then []
    else if selected[0].id == id then
      assert selected == [selected[0]] + selected[1..];
      [selected[0]] + OnlyServiceId(selected[1..], id)
    else OnlyServiceId(selected[1..], id)
  }

  /** `toggleService`: a selected service (matched by id) is removed, every
      copy of it; an unselected one is appended at the end. Either way its
      selection flips. */
  function ToggleService(selected: seq<Service>, service: Service): (r: seq<Service>)
    ensures IsSelected(selected, service) ==>
      IsSubsequence(r, selected) && forall s :: s in r <==> s in selected && s.id != service.id
    ensures !IsSelected(selected, service) ==> r == selected + [service]
    ensures IsSelected(r, service) <==> !IsSelected(selected, service)
  {
    if IsSelected(selected, service) then WithoutServiceId(selected, service.id)
    else
      var r := selected + [service];
      assert service in r;
      r
  }

  /** Filtering out an id no entry has changes nothing. */
  lemma {:induction false} WithoutAbsentId(selected: seq<Service>, id: int)
    requires forall s :: s in selected ==> s.id != id
    ensures WithoutServiceId(selected, id) == selected
  {
    if selected != [] {
      WithoutAbsentId(selected[1..], id);
      assert selected == [selected[0]] + selected[1..];
    }
  }

  /** Filtering distributes over concatenation. */
  lemma {:induction false} WithoutAppend(a: seq<Service>, b: seq<Service>, id: int)
    ensures WithoutServiceId(a + b, id) == WithoutServiceId(a, id) + WithoutServiceId(b, id)
  {
    if a == [] {
      assert a + b == b;
    } else {
      var wa, wb := WithoutServiceId(a[1..], id), WithoutServiceId(b, id);
      assert (a + b)[1..] == a[1..] + b;
      WithoutAppend(a[1..], b, id);
      if a[0].id != id {
        assert [a[0]] + (wa + wb) == ([a[0]] + wa) + wb;
      }
    }
  }

  /** Selecting an unselected service and then toggling it again restores the
      original selection. */
  lemma ToggleTwice(selected: seq<Service>, service: Service)
    requires !IsSelected(selected, service)
    ensures ToggleService(ToggleService(selected, service), service) == selected
  {
    WithoutAppend(selected, [service], service.id);
    WithoutAbsentId(selected, service.id);
    assert WithoutServiceId([service], service.id) == [];
  }

  /** The accumulator of the `reduce`. */
  datatype Totals = Totals(totalPrice: int, totalDuration: int)

  function Add(a: Totals, b: Totals): Totals {
    Totals(a.totalPrice + b.totalPrice, a.totalDuration + b.totalDuration)
  }

  /** The sum of the prices of the selection. */
  function TotalPrice(selected: seq<Service>): int {
    if selected == [] then 0 else selected[0].price + TotalPrice(selected[1..])
  }

  /** The sum of the durations of the selection. */
  function TotalDuration(selected: seq<Service>): int {
    if selected == [] then 0 else selected[0].duration + TotalDuration(selected[1..])
  }

  /** The `reduce` over the selection: it starts from zero and adds each
      service's price and duration to the matching field, so each field ends
      as the sum of that field over the selection (integer addition is
      associative, so the order of the additions does not matter). */
  function SelectionTotals(selected: seq<Service>): (t: Totals)
    ensures selected == [] ==> t == Totals(0, 0)
    ensures |selected| == 1 ==> t == Totals(selected[0].price, selected[0].duration)
  {
    assert |selected| == 1 ==> selected[1..] == [] && TotalPrice(selected[1..]) == 0 && TotalDuration(selected[1..]) == 0;
    Totals(TotalPrice(selected), TotalDuration(selected))
  }

  lemma {:induction false} PriceAppend(a: seq<Service>, b: seq<Service>)
    ensures TotalPrice(a + b) == TotalPrice(a) + TotalPrice(b)
  {
    if a == [] {
      assert a + b == b;
    } else {
      assert (a + b)[1..] == a[1..] + b;
      PriceAppend(a[1..], b);
    }
  }

  lemma {:induction false} DurationAppend(a: seq<Service>, b: seq<Service>)
    ensures TotalDuration(a + b) == TotalDuration(a) + TotalDuration(b)
  {
    if a == [] {
      assert a + b == b;
    } else {
      assert (a + b)[1..] == a[1..] + b;
      DurationAppend(a[1..], b);
    }
  }

  /** The totals of a concatenation are the sums of the totals. */
  lemma TotalsAppend(a: seq<Service>, b: seq<Service>)
    ensures SelectionTotals(a + b) == Add(SelectionTotals(a), SelectionTotals(b))
  {
    PriceAppend(a, b);
    DurationAppend(a, b);
  }

  lemma {:induction false} PriceSplitById(selected: seq<Service>, id: int)
    ensures TotalPrice(selected) ==
      TotalPrice(WithoutServiceId(selected, id)) + TotalPrice(OnlyServiceId(selected, id))
  {
    if selected != [] {
      var s, rest := selected[0], selected[1..];
      PriceSplitById(rest, id);
      if s.id == id {
        assert ([s] + OnlyServiceId(rest, id))[1..] == OnlyServiceId(rest, id);
      } else {
        assert ([s] + WithoutServiceId(rest, id))[1..] == WithoutServiceId(rest, id);
      }
    }
  }

  lemma {:induction false} DurationSplitById(selected: seq<Service>, id: int)
    ensures TotalDuration(selected) ==
      TotalDuration(WithoutServiceId(selected, id)) + TotalDuration(OnlyServiceId(selected, id))
  {
    if selected != [] {
      var s, rest := selected[0], selected[1..];
      DurationSplitById(rest, id);
      if s.id == id {
        assert ([s] + OnlyServiceId(rest, id))[1..] == OnlyServiceId(rest, id);
      } else {
        assert ([s] + WithoutServiceId(rest, id))[1..] == WithoutServiceId(rest, id);
      }
    }
  }

  /** Splitting a selection by one id splits its totals. */
  lemma TotalsSplitById(selected: seq<Service>, id: int)
    ensures SelectionTotals(selected) ==
      Add(SelectionTotals(WithoutServiceId(selected, id)), SelectionTotals(OnlyServiceId(selected, id)))
  {
    PriceSplitById(selected, id);
    DurationSplitById(selected, id);
  }

  /** Toggling changes the totals by the toggled service: selecting adds its
      price and duration; deselecting subtracts those of every removed entry. */
  lemma ToggleTotals(selected: seq<Service>, service: Service)
    ensures !IsSelected(selected, service) ==>
      SelectionTotals(ToggleService(selected, service)) ==
      Add(SelectionTotals(selected), Totals(service.price, service.duration))
    ensures IsSelected(selected, service) ==>
      Add(SelectionTotals(ToggleService(selected, service)), SelectionTotals(OnlyServiceId(selected, service.id))) ==
      SelectionTotals(selected)
  {
    if IsSelected(selected, service) {
      TotalsSplitById(selected, service.id);
    } else {
      TotalsAppend(selected, [service]);
    }
  }

  /** `disabled={selectedServices.length === 0}`: next is disabled exactly
      when no service counts as selected. */
  function ServicesNextDisabled(selected: seq<Service>): (disabled: bool)
    ensures disabled <==> forall s :: !IsSelected(selected, s)
  {
    if |selected| == 0 then true
    else
      assert selected[0] in selected;
      assert IsSelected(selected, selected[0]);
      false
  }
}
