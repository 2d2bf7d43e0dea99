/**
 * The state updates of frontend/src/components/VenueSelector.tsx: selecting
 * and deselecting recommended places, the price label, the preference
 * toggles, and the photo-carousel index of each place.
 */
module VenueSelector {
  import opened Wrappers
  import opened Text
  import opened Seqs
  import opened EventTypes

  /**
   * A recommended place. `ratingText` is the rating as JavaScript prints the
   * number; `photoCount` is `photos?.length`, 0 when there are no photos.
   */
  datatype Place = Place(
    placeId: string,
    name: string,
    vicinity: string,
    ratingText: string,
    priceLevel: Option<int>,
    types: seq<string>,
    photoCount: nat,
    aiSummary: Option<string>)

  /** JavaScript truthiness of an optional number (NaN aside). */
  predicate TruthyLevel(p: Option<int>) {
    p.Some? && p.value != 0
  }

  /** The description of a selected place: the AI summary when AI is on and there is one, else the rating line. */
  function VenueDescription(place: Place, useAI: bool): (d: string)
    ensures useAI && place.aiSummary.Some? ==> d == place.aiSummary.value
    ensures !(useAI && place.aiSummary.Some?) ==> StartsWith(d, "Rating: " + place.ratingText + "/5 ")
    ensures !(useAI && place.aiSummary.Some?) && !TruthyLevel(place.priceLevel) ==>
      d == "Rating: " + place.ratingText + "/5 "
    ensures !(useAI && place.aiSummary.Some?) && TruthyLevel(place.priceLevel) ==>
      d == "Rating: " + place.ratingText + "/5 " + "• Price Level: " + IntToString(place.priceLevel.value) + "/4"
  {
    if useAI && place.aiSummary.Some? then place.aiSummary.value
    else
      var prefix := "Rating: " + place.ratingText + "/5 ";
      var d := prefix + (if TruthyLevel(place.priceLevel) then "• Price Level: " + IntToString(place.priceLevel.value) + "/4" else "");
      assert d[..|prefix|] == prefix;
      d
  }

  /** The venue object a click on a place adds to the selection. */
  function VenueFromPlace(place: Place, useAI: bool): (v: VenueInput)
    ensures v.name == place.name && v.address == Some(place.vicinity)
    ensures v.placeId == Some(place.placeId) && v.priceLevel == place.priceLevel
    ensures v.description == Some(VenueDescription(place, useAI)) && v.aiSummary == place.aiSummary
  {
    VenueInput(place.name, Some(place.vicinity), Some(VenueDescription(place, useAI)), Some(place.placeId),
               place.priceLevel, place.aiSummary)
  }

  /** `selectedVenues.some(v => v.place_id === placeId)`. */
  predicate IsSelected(selected: seq<VenueInput>, placeId: string) {
    exists i :: 0 <= i < |selected| && selected[i].placeId == Some(placeId)
  }

  /** `selectedVenues.filter(v => v.place_id !== placeId)`. */
  function WithoutPlace(selected: seq<VenueInput>, placeId: string): (r: seq<VenueInput>)
    ensures forall v :: v in r <==> v in selected && v.placeId != Some(placeId)
    ensures !IsSelected(selected, placeId) ==> r == selected
    ensures |r| <= |selected|
  {
    if selected == [] then []
    else
      var rest := WithoutPlace(selected[1..], placeId);
      assert !IsSelected(selected, placeId) ==> !IsSelected(selected[1..], placeId) by {
        if IsSelected(selected[1..], placeId) {
          var i :| 0 <= i < |selected[1..]| && selected[1..][i].placeId == Some(placeId);
          assert selected[i + 1].placeId == Some(placeId);
        }
      }
      assert selected == [selected[0]] + selected[1..];
      if selected[0].placeId != Some(placeId) then [selected[0]] + rest else rest
  }

  /** The filter keeps the order and the multiplicity of the entries it keeps: it distributes over concatenation. */
  lemma {:induction false} WithoutPlaceConcat(a: seq<VenueInput>, b: seq<VenueInput>, placeId: string)
    ensures WithoutPlace(a + b, placeId) == WithoutPlace(a, placeId) + WithoutPlace(b, placeId)
  {
    if a == [] {
      assert a + b == b;
    } else {
      assert (a + b)[1..] == a[1..] + b;
      WithoutPlaceConcat(a[1..], b, placeId);
    }
  }

  /** On one entry the filter keeps it exactly when its place id differs. */
  lemma WithoutPlaceSingle(v: VenueInput, placeId: string)
    ensures WithoutPlace([v], placeId) == if v.placeId == Some(placeId) then [] else [v]
  {
    assert [v][1..] == [];
  }

  /** `toggleVenueSelection(place)`: the selection handed to `onVenuesSelected`. */
  function ToggleVenueSelection(selected: seq<VenueInput>, place: Place, useAI: bool): (r: seq<VenueInput>)
    ensures IsSelected(selected, place.placeId) ==>
      && !IsSelected(r, place.placeId)
      && (forall v :: v in r <==> v in selected && v.placeId != Some(place.placeId))
    ensures !IsSelected(selected, place.placeId) ==> r == selected + [VenueFromPlace(place, useAI)]
    ensures IsSelected(r, place.placeId) <==> !IsSelected(selected, place.placeId)
  {
    if IsSelected(selected, place.placeId) then
      WithoutPlace(selected, place.placeId)
    else
      var r := selected + [VenueFromPlace(place, useAI)];
      assert r[|selected|].placeId == Some(place.placeId);
      r
  }

  /** Clicking an unselected place twice gives the selection back. */
  lemma ToggleVenueTwice(selected: seq<VenueInput>, place: Place, useAI: bool)
    requires !IsSelected(selected, place.placeId)
    ensures ToggleVenueSelection(ToggleVenueSelection(selected, place, useAI), place, useAI) == selected
  {
    var v := VenueFromPlace(place, useAI);
    WithoutPlaceAppend(selected, v, place.placeId);
  }

  lemma {:induction false} WithoutPlaceAppend(selected: seq<VenueInput>, v: VenueInput, placeId: string)
    requires !IsSelected(selected, placeId) && v.placeId == Some(placeId)
    ensures WithoutPlace(selected + [v], placeId) == selected
  {
    if selected == [] {
      assert selected + [v] == [v];
    } else {
      assert (selected + [v])[1..] == selected[1..] + [v];
      assert selected[0].placeId != Some(placeId);
      WithoutPlaceAppend(selected[1..], v, placeId);
      assert selected == [selected[0]] + selected[1..];
    }
  }

  /** The filled and empty circle `getPriceLabel` draws. */
  const EmptyCircle: char := '○'

  /**
   * `getPriceLabel(priceLevel)`. `String.prototype.repeat` throws a
   * RangeError for a negative count, so a level below 0 or above 4 makes the
   * call throw.
   */
  function PriceLabel(priceLevel: Option<int>): (r: Result<string, string>)
    ensures !TruthyLevel(priceLevel) ==> r == Ok("Price not available")
    ensures TruthyLevel(priceLevel) ==> (r.Ok? <==> 1 <= priceLevel.value <= 4)
    ensures TruthyLevel(priceLevel) && r.Ok? ==>
      && |r.value| == 4
      && (forall i :: 0 <= i < priceLevel.value ==> r.value[i] == '$')
      && (forall i :: priceLevel.value <= i < 4 ==> r.value[i] == EmptyCircle)
  {
    if !TruthyLevel(priceLevel) then Ok("Price not available")
    else
      var p := priceLevel.value;
      if p < 0 || 4 - p < 0 then Err("RangeError")
      else
        var dollars, circles := Repeat("$", p), Repeat([EmptyCircle], 4 - p);
        forall i | 0 <= i < p ensures (dollars + circles)[i] == '$' { RepeatCharAt('$', p, i); }
        forall i | p <= i < 4 ensures (dollars + circles)[i] == EmptyCircle { RepeatCharAt(EmptyCircle, 4 - p, i - p); }
        Ok(dollars + circles)
  }

  /** The fields of `VenuePreferences`. */
  datatype PrefKey = Budget | Vibes | Atmosphere | Cuisine | ActivityType

  /** A preference value: the budget is a string, the others are lists. */
  datatype PrefValue = Text(text: string) | Items(items: seq<string>)

  /** The preferences object; an optional field that is unset has no key. */
  type Preferences = map<PrefKey, PrefValue>

  /**
   * `togglePreferenceItem(category, item)`. A field that does not hold a list
   * (the budget string, an unset optional field) becomes the list `[item]`.
   */
  function TogglePreferenceItem(prefs: Preferences, category: PrefKey, item: string): (r: Preferences)
    ensures r.Keys == prefs.Keys + {category}
    ensures forall k :: k in prefs && k != category ==> r[k] == prefs[k]
    ensures r[category].Items?
    ensures category in prefs && prefs[category].Items? ==>
      var before := prefs[category].items;
      && (item in r[category].items <==> item !in before)
      && multiset(r[category].items)[item := 0] == multiset(before)[item := 0]
      && (item !in before ==> r[category].items == before + [item])
    ensures !(category in prefs && prefs[category].Items?) ==> r[category] == Items([item])
  {
    var updated := if category in prefs && prefs[category].Items? then Toggle(prefs[category].items, item) else [item];
    prefs[category := Items(updated)]
  }

  /** Toggling an item that a list field lacks, twice, restores the preferences. */
  lemma TogglePreferenceTwice(prefs: Preferences, category: PrefKey, item: string)
    requires category in prefs && prefs[category].Items? && item !in prefs[category].items
    ensures TogglePreferenceItem(TogglePreferenceItem(prefs, category, item), category, item) == prefs
  {
    ToggleTwiceAbsent(prefs[category].items, item);
    var r := TogglePreferenceItem(TogglePreferenceItem(prefs, category, item), category, item);
    assert r.Keys == prefs.Keys;
  }

  /** The carousel position of every place; `currentPhotoIndex[id] || 0` reads a missing entry as 0. */
  type PhotoIndices = map<string, nat>

  function PhotoIndex(indices: PhotoIndices, placeId: string): nat {
    if placeId in indices then indices[placeId] else 0
  }

  /** `recommendations.find(p => p.place_id === id)`. */
  function FindPlace(places: seq<Place>, placeId: string): (r: Option<Place>)
    ensures r.Some? ==> r.value in places && r.value.placeId == placeId
    ensures r.None? <==> forall i :: 0 <= i < |places| ==> places[i].placeId != placeId
    ensures r.Some? ==> exists i :: 0 <= i < |places| && places[i] == r.value
                          && forall j :: 0 <= j < i ==> places[j].placeId != placeId
  {
    if places == [] then None
    else if places[0].placeId == placeId then Some(places[0])
    else
      var r := FindPlace(places[1..], placeId);
      assert r.Some? ==> exists i :: 0 <= i < |places| && places[i] == r.value
                          && forall j :: 0 <= j < i ==> places[j].placeId != placeId by {
        if r.Some? {
          var i :| 0 <= i < |places[1..]| && places[1..][i] == r.value
                   && forall j :: 0 <= j < i ==> places[1..][j].placeId != placeId;
          assert places[i + 1] == r.value;
          assert forall j :: 0 <= j < i + 1 ==> places[j].placeId != placeId by {
            forall j | 0 <= j < i + 1 ensures places[j].placeId != placeId {
              if j > 0 { assert places[j] == places[1..][j - 1]; }
            }
          }
        }
      }
      assert r.None? ==> forall i :: 0 <= i < |places| ==> places[i].placeId != placeId by {
        if r.None? {
          forall i | 0 <= i < |places| ensures places[i].placeId != placeId {
            if i > 0 { assert places[i] == places[1..][i - 1]; }
          }
        }
      }
      r
  }

  /**
   * One auto-swipe step for the hovered place (the first step on hover and
   * every later interval tick alike): a missing or empty hover id, or a place
   * with at most one photo, changes nothing; otherwise only the hovered
   * place's index advances, wrapping at its photo count.
   */
  function AutoSwipe(indices: PhotoIndices, hovered: Option<string>, recommendations: seq<Place>): (r: PhotoIndices)
    ensures hovered.None? || hovered.value == "" ==> r == indices
    ensures hovered.Some? && hovered.value != "" ==>
      var n := PhotoCountOf(recommendations, hovered.value);
      && (n <= 1 ==> r == indices)
      && (n > 1 ==>
           && r.Keys == indices.Keys + {hovered.value}
           && r[hovered.value] == (PhotoIndex(indices, hovered.value) + 1) % n
           && r[hovered.value] < n
           && forall id :: id in indices && id != hovered.value ==> r[id] == indices[id])
  {
    if hovered.None? || hovered.value == "" then indices
    else
      var id := hovered.value;
      var n := PhotoCountOf(recommendations, id);
      if n <= 1 then indices else indices[id := (PhotoIndex(indices, id) + 1) % n]
  }

  /** `place?.photos || []` then `.length`. */
  function PhotoCountOf(recommendations: seq<Place>, placeId: string): nat {
    match FindPlace(recommendations, placeId)
    case None => 0
    case Some(p) => p.photoCount
  }

  /** The "previous photo" button, shown only when the place has more than one photo. */
  function PrevPhoto(i: nat, n: nat): (j: nat)
    requires n > 1
    ensures i < n ==> j < n
    ensures i < n ==> j == (i + n - 1) % n
  {
    if i == 0 then (ModOfShifted(n - 1, n, 0); n - 1)
    else if i < n then (ModOfShifted(i - 1, n, 1); i - 1)
    else i - 1
  }

  /** `(r + q * n) % n == r` for a remainder `r` below `n`. */
  lemma ModOfShifted(r: nat, n: nat, q: nat)
    requires r < n && q <= 1
    ensures (r + q * n) % n == r
  {
  }

  /** The "next photo" button. */
  function NextPhoto(i: nat, n: nat): (j: nat)
    requires n > 1
    ensures i < n ==> j < n
    ensures i < n ==> j == (i + 1) % n
  {
    if i == n - 1 then (ModOfShifted(0, n, 1); 0)
    else if i < n then (ModOfShifted(i + 1, n, 0); i + 1)
    else i + 1
  }

  /** Next undoes previous, and previous undoes next. */
  lemma PrevNextInverse(i: nat, n: nat)
    requires n > 1 && i < n
    ensures NextPhoto(PrevPhoto(i, n), n) == i
    ensures PrevPhoto(NextPhoto(i, n), n) == i
  {
  }

  /** A click on either button updates only that place's entry. */
  function ClickPhotoButton(indices: PhotoIndices, placeId: string, n: nat, forward: bool): (r: PhotoIndices)
    requires n > 1
    ensures r.Keys == indices.Keys + {placeId}
    ensures forall id :: id in indices && id != placeId ==> r[id] == indices[id]
    ensures r[placeId] == if forward then NextPhoto(PhotoIndex(indices, placeId), n) else PrevPhoto(PhotoIndex(indices, placeId), n)
    ensures PhotoIndex(indices, placeId) < n ==> r[placeId] < n
  {
    var i := PhotoIndex(indices, placeId);
    indices[placeId := if forward then NextPhoto(i, n) else PrevPhoto(i, n)]
  }

  /** The back button undoes the next button, and the next button undoes the back button. */
  lemma BackUndoesNext(indices: PhotoIndices, placeId: string, n: nat)
    requires n > 1 && PhotoIndex(indices, placeId) < n
    ensures PhotoIndex(ClickPhotoButton(ClickPhotoButton(indices, placeId, n, true), placeId, n, false), placeId)
         == PhotoIndex(indices, placeId)
    ensures PhotoIndex(ClickPhotoButton(ClickPhotoButton(indices, placeId, n, false), placeId, n, true), placeId)
         == PhotoIndex(indices, placeId)
  {
    PrevNextInverse(PhotoIndex(indices, placeId), n);
  }

  /** The next button moves one photo on, exactly as an auto-swipe step of the hovered place does. */
  lemma NextButtonAgreesWithAutoSwipe(indices: PhotoIndices, placeId: string, recommendations: seq<Place>)
    requires placeId != ""
    requires PhotoCountOf(recommendations, placeId) > 1
    requires PhotoIndex(indices, placeId) < PhotoCountOf(recommendations, placeId)
    ensures ClickPhotoButton(indices, placeId, PhotoCountOf(recommendations, placeId), true)
         == AutoSwipe(indices, Some(placeId), recommendations)
  {
  }
}
