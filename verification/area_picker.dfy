/** The province → city → area picker. The province column shows the
    provinces' short names; the city list is the selected province's cities
    and the area column shows the labels of one city's areas. Moving an
    upstream column rebuilds everything below it and resets the rebuilt
    columns to their first entry. */
module AreaPicking {
  import opened Lists
  import opened Regions
  import Wheel

  /** Province index the constructor cascades from. */
  const ProvinceInitialIndex := 0

  /** The display labels of cities and areas (their `getShortName`), whose
      rule is not part of this model. */
  datatype Labels = Labels(city: City -> string, area: Area -> string)

  datatype AreaPicker = AreaPicker(
    provinces: seq<Province>,
    cityList: seq<City>,
    provinceColumn: Wheel.Column,
    cityColumn: Wheel.Column,
    areaColumn: Wheel.Column)

  // ----- column contents -----

  function ProvinceNames(provinces: seq<Province>): (r: seq<string>)
    ensures |r| == |provinces|
    ensures forall i :: 0 <= i < |r| ==> r[i] == ShortName(provinces[i].name)
    ensures forall i :: 0 <= i < |r| ==> |r[i]| <= ShortNameLength && r[i] <= provinces[i].name
  {
    seq(|provinces|, i requires 0 <= i < |provinces| => ShortName(provinces[i].name))
  }

  function CityNames(cities: seq<City>, labels: Labels): (r: seq<string>)
    ensures |r| == |cities|
    ensures forall i :: 0 <= i < |r| ==> r[i] == labels.city(cities[i])
  {
    seq(|cities|, i requires 0 <= i < |cities| => labels.city(cities[i]))
  }

  function AreaNames(areas: seq<Area>, labels: Labels): (r: seq<string>)
    ensures |r| == |areas|
    ensures forall i :: 0 <= i < |r| ==> r[i] == labels.area(areas[i])
  {
    seq(|areas|, i requires 0 <= i < |areas| => labels.area(areas[i]))
  }

  // ----- the cascade invariant -----

  /** Every column shows what its upstream selection dictates: the province
      column the province labels, the city list the selected province's
      cities with their labels, and the area column the labels of the
      selected city's areas. */
  predicate Cascaded(s: AreaPicker, labels: Labels) {
    0 <= s.provinceColumn.selected < |s.provinces|
    && s.provinceColumn.data == ProvinceNames(s.provinces)
    && s.cityList == s.provinces[s.provinceColumn.selected].cities
    && 0 <= s.cityColumn.selected < |s.cityList|
    && s.cityColumn.data == CityNames(s.cityList, labels)
    && s.areaColumn.data == AreaNames(s.cityList[s.cityColumn.selected].areas, labels)
  }

  // ----- getters -----

  function GetProvince(s: AreaPicker): (r: Result<Province>)
    ensures r.Ok? <==> 0 <= s.provinceColumn.selected < |s.provinces|
    ensures r.Ok? ==> r.value == s.provinces[s.provinceColumn.selected]
  {
    At(s.provinces, s.provinceColumn.selected)
  }

  function GetCity(s: AreaPicker): (r: Result<City>)
    ensures r.Ok? <==> 0 <= s.cityColumn.selected < |s.cityList|
    ensures r.Ok? ==> r.value == s.cityList[s.cityColumn.selected]
  {
    At(s.cityList, s.cityColumn.selected)
  }

  /** The area is looked up through the city list, not through the area
      column's labels. */
  function GetArea(s: AreaPicker): (r: Result<Area>)
    ensures r.Ok? <==> 0 <= s.cityColumn.selected < |s.cityList|
                       && 0 <= s.areaColumn.selected < |s.cityList[s.cityColumn.selected].areas|
    ensures r.Ok? ==> r.value == s.cityList[s.cityColumn.selected].areas[s.areaColumn.selected]
  {
    var city :- At(s.cityList, s.cityColumn.selected);
    At(city.areas, s.areaColumn.selected)
  }

  // ----- operations -----

  /** `setArea(position)`: the area column shows the labels of the areas of
      the city at `position` and returns to its first entry. Fails when
      `position` is outside the city list; the province and city columns and
      the city list never change. */
  function SetArea(s: AreaPicker, position: int, labels: Labels): (r: Result<AreaPicker>)
    ensures r.Ok? <==> 0 <= position < |s.cityList|
    ensures r.Ok? ==> r.value.areaColumn == Wheel.Column(AreaNames(s.cityList[position].areas, labels), 0)
    ensures r.Ok? ==> r.value.provinces == s.provinces && r.value.cityList == s.cityList
    ensures r.Ok? ==> r.value.provinceColumn == s.provinceColumn && r.value.cityColumn == s.cityColumn
  {
    var city :- At(s.cityList, position);
    Ok(s.(areaColumn := Wheel.SetSelectedItemPosition(Wheel.SetData(s.areaColumn, AreaNames(city.areas, labels)), 0)))
  }

  /** `setCityAndAreaData(position)`: the city list becomes the cities of the
      province at `position`, the city column shows their labels at index 0,
      and the area column is rebuilt from the first city. Fails when
      `position` is outside the province list or that province has no city. */
  function SetCityAndAreaData(s: AreaPicker, position: int, labels: Labels): (r: Result<AreaPicker>)
    ensures r.Ok? <==> 0 <= position < |s.provinces| && |s.provinces[position].cities| > 0
    ensures r.Ok? ==> r.value.cityList == s.provinces[position].cities
    ensures r.Ok? ==> r.value.cityColumn == Wheel.Column(CityNames(r.value.cityList, labels), 0)
    ensures r.Ok? ==> r.value.areaColumn == Wheel.Column(AreaNames(r.value.cityList[0].areas, labels), 0)
    ensures r.Ok? ==> r.value.provinces == s.provinces && r.value.provinceColumn == s.provinceColumn
  {
    var province :- At(s.provinces, position);
    var moved := s.(cityList := province.cities,
                    cityColumn := Wheel.SetSelectedItemPosition(Wheel.SetData(s.cityColumn, CityNames(province.cities, labels)), 0));
    SetArea(moved, 0, labels)
  }

  /** The constructor after loading `provinces`: the province column shows
      the provinces' short names in order, and the cascade runs from the first
      province, the column's initial position. Fails when there is no
      province or the first one has no city. */
  function ObtainProvinceData(provinces: seq<Province>, labels: Labels): (r: Result<AreaPicker>)
    ensures r.Ok? <==> |provinces| > 0 && |provinces[0].cities| > 0
    ensures r.Ok? ==> Cascaded(r.value, labels)
    ensures r.Ok? ==> r.value.provinces == provinces && |r.value.provinceColumn.data| == |provinces|
    ensures r.Ok? ==> forall i :: 0 <= i < |provinces| ==> r.value.provinceColumn.data[i] == ShortName(provinces[i].name)
    ensures r.Ok? ==> r.value.provinceColumn.selected == ProvinceInitialIndex
    ensures r.Ok? ==> r.value.cityColumn.selected == 0 && r.value.areaColumn.selected == 0
  {
    var empty := AreaPicker(provinces, [], Wheel.Fresh, Wheel.Fresh, Wheel.Fresh);
    SetCityAndAreaData(empty.(provinceColumn := Wheel.SetData(Wheel.Fresh, ProvinceNames(provinces))),
                       ProvinceInitialIndex, labels)
  }

  /** The province column settled at `position`: city and area columns are
      rebuilt for that province and reset to their first entries. Fails when
      `position` is outside the province list or names a province without
      cities. */
  function OnProvinceSettled(s: AreaPicker, position: int, labels: Labels): (r: Result<AreaPicker>)
    ensures r.Ok? <==> 0 <= position < |s.provinces| && |s.provinces[position].cities| > 0
    ensures r.Ok? ==> r.value.provinceColumn.selected == position
    ensures r.Ok? ==> r.value.cityList == s.provinces[position].cities
    ensures r.Ok? ==> r.value.provinces == s.provinces && r.value.provinceColumn.data == s.provinceColumn.data
    ensures r.Ok? ==> r.value.cityColumn == Wheel.Column(CityNames(s.provinces[position].cities, labels), 0)
    ensures r.Ok? ==> r.value.areaColumn == Wheel.Column(AreaNames(s.provinces[position].cities[0].areas, labels), 0)
    ensures r.Ok? && s.provinceColumn.data == ProvinceNames(s.provinces) ==> Cascaded(r.value, labels)
  {
    SetCityAndAreaData(s.(provinceColumn := Wheel.SetSelectedItemPosition(s.provinceColumn, position)), position, labels)
  }

  /** The city column settled at `position`: only the area column is
      rebuilt. Fails when `position` is outside the city list. */
  function OnCitySettled(s: AreaPicker, position: int, labels: Labels): (r: Result<AreaPicker>)
    ensures r.Ok? <==> 0 <= position < |s.cityList|
    ensures r.Ok? ==> r.value.cityColumn.selected == position && r.value.areaColumn.selected == 0
    ensures r.Ok? ==> r.value.provinces == s.provinces && r.value.cityList == s.cityList
    ensures r.Ok? ==> r.value.provinceColumn == s.provinceColumn && r.value.cityColumn.data == s.cityColumn.data
    ensures r.Ok? ==> r.value.areaColumn == Wheel.Column(AreaNames(s.cityList[position].areas, labels), 0)
    ensures r.Ok? && Cascaded(s, labels) ==> Cascaded(r.value, labels)
  {
    SetArea(s.(cityColumn := Wheel.SetSelectedItemPosition(s.cityColumn, position)), position, labels)
  }

  /** The area column settled at `position`: no listener is attached, so
      only the column's own selection moves. */
  function OnAreaSettled(s: AreaPicker, position: int): (r: AreaPicker)
    ensures r.areaColumn == Wheel.Column(s.areaColumn.data, position)
    ensures r.provinces == s.provinces && r.cityList == s.cityList
    ensures r.provinceColumn == s.provinceColumn && r.cityColumn == s.cityColumn
  {
    s.(areaColumn := Wheel.SetSelectedItemPosition(s.areaColumn, position))
  }

  // ----- properties relating several operations -----

  /** A settle event delivered by one of the three columns. */
  datatype Settle = ProvinceSettle(position: int) | CitySettle(position: int) | AreaSettle(position: int)

  function Apply(s: AreaPicker, e: Settle, labels: Labels): Result<AreaPicker> {
    match e
    case ProvinceSettle(p) => OnProvinceSettled(s, p, labels)
    case CitySettle(p) => OnCitySettled(s, p, labels)
    case AreaSettle(p) => Ok(OnAreaSettled(s, p))
  }

  /** Replaying settle events from a cascaded picker: the first event that
      fails stops the replay with its error. */
  function ApplyAll(s: AreaPicker, events: seq<Settle>, labels: Labels): Result<AreaPicker>
    decreases |events|
  {
    if |events| == 0 then Ok(s)
    else
      var t :- Apply(s, events[0], labels);
      ApplyAll(t, events[1..], labels)
  }

  /** However many settle events arrive, in whatever order, the picker that
      comes out stays cascaded and still holds the same provinces. */
  lemma {:induction false} CascadeInvariant(s: AreaPicker, events: seq<Settle>, labels: Labels)
    requires Cascaded(s, labels)
    ensures var r := ApplyAll(s, events, labels);
      r.Ok? ==> Cascaded(r.value, labels) && r.value.provinces == s.provinces
    decreases |events|
  {
    if |events| > 0 {
      var t := Apply(s, events[0], labels);
      if t.Ok? {
        CascadeInvariant(t.value, events[1..], labels);
      }
    }
  }

  /** In a cascaded picker the selected city is one of the selected
      province's cities, the selected area (when the area index is in range)
      is one of that city's areas, and the area column shows that city's
      area labels. */
  lemma CascadedSelection(s: AreaPicker, labels: Labels)
    requires Cascaded(s, labels)
    ensures GetProvince(s).Ok? && GetCity(s).Ok?
    ensures GetCity(s).value in GetProvince(s).value.cities
    ensures GetArea(s).Ok? <==> 0 <= s.areaColumn.selected < |GetCity(s).value.areas|
    ensures GetArea(s).Ok? ==> GetArea(s).value in GetCity(s).value.areas
    ensures s.areaColumn.data == AreaNames(GetCity(s).value.areas, labels)
    ensures s.provinceColumn.data[s.provinceColumn.selected] == ShortName(GetProvince(s).value.name)
    ensures s.cityColumn.data[s.cityColumn.selected] == labels.city(GetCity(s).value)
    ensures GetArea(s).Ok? ==> s.areaColumn.data[s.areaColumn.selected] == labels.area(GetArea(s).value)
  {
  }

  /** Right after a province settle the getters read the province at
      `position`, its first city and that city's first area (when it has
      one). */
  lemma ProvinceSettleSelects(s: AreaPicker, position: int, labels: Labels)
    requires 0 <= position < |s.provinces| && |s.provinces[position].cities| > 0
    ensures var r := OnProvinceSettled(s, position, labels);
      r.Ok? && GetProvince(r.value) == Ok(s.provinces[position])
      && GetCity(r.value) == Ok(s.provinces[position].cities[0])
      && (GetArea(r.value).Ok? <==> |s.provinces[position].cities[0].areas| > 0)
      && (GetArea(r.value).Ok? ==> GetArea(r.value).value == s.provinces[position].cities[0].areas[0])
  {
  }
}
