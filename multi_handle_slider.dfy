/** The vertical multi-handle slider widget (`SMultiHandleSlider`): handle values map
    linearly onto the widget's height, the mouse picks a handle within 10 units, drags it
    and releases it. Mouse positions are taken in the widget's local coordinates. */
module MultiHandleSlider {
  import opened Common

  /** `INDEX_NONE`. */
  const IndexNone: int := -1

  /** The pick tolerance around a handle. */
  const HandleTolerance: real := 10.0

  /** `GetHandlePosition` for a slider spanning [minValue, maxValue] on a widget of the
      given height: the minimum at the bottom (`height`) and the maximum at the top (0).
      With an empty range the float division gives no finite position. */
  function HandlePosition(minValue: real, maxValue: real, value: real, height: real): (r: Option<real>)
    ensures r.Some? <==> maxValue != minValue
  {
    var range := maxValue - minValue;
    if range == 0.0 then None
    else
      var normalizedValue := (value - minValue) / range;
      Some(height * (1.0 - normalizedValue))
  }

  /** The ends of the range land on the ends of the widget, and positions are linear in
      the value. */
  lemma HandlePositionIsLinear(minValue: real, maxValue: real, v1: real, v2: real, height: real)
    requires maxValue != minValue
    ensures HandlePosition(minValue, maxValue, minValue, height) == Some(height)
    ensures HandlePosition(minValue, maxValue, maxValue, height) == Some(0.0)
    ensures HandlePosition(minValue, maxValue, v1, height).value - HandlePosition(minValue, maxValue, v2, height).value ==
            height * ((v2 - v1) / (maxValue - minValue))
  {
    var range := maxValue - minValue;
    DivOfProduct(0.0, range, 0.0);
    DivOfProduct(range, range, 1.0);
    assert (maxValue - minValue) / range == 1.0;
    assert HandlePosition(minValue, maxValue, maxValue, height).value == height * (1.0 - 1.0);
    var n1 := (v1 - minValue) / range;
    var n2 := (v2 - minValue) / range;
    QuotientDifference(n1, n2, v1 - minValue, v2 - minValue, range);
    assert height * (1.0 - n1) - height * (1.0 - n2) == height * (n2 - n1);
  }

  lemma DivOfProduct(y: real, h: real, x: real)
    requires h != 0.0 && y == h * x
    ensures y / h == x
  {
  }

  lemma ProductOfQuotient(q: real, a: real, r: real)
    requires r != 0.0 && q == a / r
    ensures q * r == a
  {
  }

  lemma QuotientDifference(q1: real, q2: real, a1: real, a2: real, r: real)
    requires r != 0.0 && q1 == a1 / r && q2 == a2 / r
    ensures q2 - q1 == (a2 - a1) / r
  {
    ProductOfQuotient(q1, a1, r);
    ProductOfQuotient(q2, a2, r);
    assert (q2 - q1) * r == a2 - a1;
    DivOfProduct(a2 - a1, r, q2 - q1);
  }

  /** The value `UpdateHandleValueFromMouse` computes for a mouse height: the inverse of
      the position mapping, clamped into the range. */
  function ValueFromMouse(minValue: real, maxValue: real, mouseY: real, height: real): (r: real)
    requires height > 0.0
    ensures minValue <= maxValue ==> minValue <= r <= maxValue
    ensures mouseY == height && minValue <= maxValue ==> r == minValue
    ensures mouseY == 0.0 && minValue <= maxValue ==> r == maxValue
  {
    var range := maxValue - minValue;
    var newValue := minValue + ((1.0 - mouseY / height) * range);
    Clamp(newValue, minValue, maxValue)
  }

  /** Round trip: releasing the mouse where a handle of value v is drawn gives back v. */
  lemma ValueAtHandlePosition(minValue: real, maxValue: real, v: real, height: real)
    requires minValue < maxValue && minValue <= v <= maxValue && height > 0.0
    ensures ValueFromMouse(minValue, maxValue, HandlePosition(minValue, maxValue, v, height).value, height) == v
  {
    var range := maxValue - minValue;
    var n := (v - minValue) / range;
    var y := height * (1.0 - n);
    assert HandlePosition(minValue, maxValue, v, height).value == y;
    DivOfProduct(y, height, 1.0 - n);
    ProductOfQuotient(n, v - minValue, range);
    assert minValue + (1.0 - y / height) * range == v;
  }

  /** And the other way: a value picked with the mouse inside the widget is drawn under
      the mouse. */
  lemma HandlePositionOfMouseValue(minValue: real, maxValue: real, mouseY: real, height: real)
    requires minValue < maxValue && height > 0.0 && 0.0 <= mouseY <= height
    ensures HandlePosition(minValue, maxValue, ValueFromMouse(minValue, maxValue, mouseY, height), height) == Some(mouseY)
  {
    var range := maxValue - minValue;
    var q := mouseY / height;
    ProductOfQuotient(q, mouseY, height);
    UnitFraction(q, mouseY, height);
    var f := 1.0 - q;
    FractionOfRange(f, range);
    var v := minValue + f * range;
    assert ValueFromMouse(minValue, maxValue, mouseY, height) == v;
    DivOfProduct(v - minValue, range, f);
    assert (v - minValue) / range == f;
    assert 1.0 - f == q;
    assert HandlePosition(minValue, maxValue, v, height).value == height * q;
    assert height * q == mouseY;
  }

  lemma UnitFraction(q: real, y: real, h: real)
    requires h > 0.0 && 0.0 <= y <= h && q * h == y
    ensures 0.0 <= q <= 1.0
  {
  }

  lemma FractionOfRange(f: real, range: real)
    requires 0.0 <= f <= 1.0 && range > 0.0
    ensures 0.0 <= f * range <= range
  {
    assert range - f * range == (1.0 - f) * range;
  }

  /** A handle of this value is drawn strictly within the tolerance of the mouse. */
  predicate Near(minValue: real, maxValue: real, value: real, mouseY: real, height: real)
  {
    match HandlePosition(minValue, maxValue, value, height)
    case Some(p) => Abs(mouseY - p) < HandleTolerance
    case None => false
  }

  class MultiHandleSlider {
    var minValue: real
    var maxValue: real
    var handleValues: seq<real>
    var activeHandleIndex: int

    /** The active handle, if any, is one of the handles. */
    ghost predicate Valid()
      reads this
    {
      activeHandleIndex == IndexNone || 0 <= activeHandleIndex < |handleValues|
    }

    /** `Construct`: the range and the handles from the arguments, no handle active. */
    constructor Construct(minValue0: real, maxValue0: real, handleValues0: seq<real>)
      ensures minValue == minValue0 && maxValue == maxValue0 && handleValues == handleValues0
      ensures activeHandleIndex == IndexNone && Valid()
    {
      minValue := minValue0;
      maxValue := maxValue0;
      handleValues := handleValues0;
      activeHandleIndex := IndexNone;
    }

    /** The handle values; on a valid slider the active handle, if any, indexes them. */
    function GetHandleValues(): (r: seq<real>)
      reads this
      ensures Valid() ==> activeHandleIndex == IndexNone || 0 <= activeHandleIndex < |r|
    {
      handleValues
    }

    /** `GetHandlePosition` on this slider's range: the minimum at the bottom, the
        maximum at the top, and no finite position when the range is empty. */
    function GetHandlePosition(value: real, height: real): (r: Option<real>)
      reads this
      ensures r.Some? <==> maxValue != minValue
      ensures r.Some? && value == minValue ==> r.value == height
      ensures r.Some? && value == maxValue ==> r.value == 0.0
    {
      HandlePosition(minValue, maxValue, value, height)
    }


    /** `OnMouseButtonDown`: activates the first handle near the mouse; without one the
        event is unhandled and nothing changes. */
    method OnMouseButtonDown(mouseY: real, height: real) returns (handled: bool)
      requires Valid()
      modifies this
      ensures Valid()
      ensures minValue == old(minValue) && maxValue == old(maxValue) && handleValues == old(handleValues)
      ensures handled <==> exists i :: 0 <= i < |handleValues| && Near(minValue, maxValue, handleValues[i], mouseY, height)
      ensures handled ==> 0 <= activeHandleIndex < |handleValues| && Near(minValue, maxValue, handleValues[activeHandleIndex], mouseY, height) &&
                          forall j :: 0 <= j < activeHandleIndex ==> !Near(minValue, maxValue, handleValues[j], mouseY, height)
      ensures !handled ==> activeHandleIndex == old(activeHandleIndex)
    {
      var values := handleValues;
      var i := 0;
      while i < |values|
        invariant 0 <= i <= |values| && values == handleValues
        invariant forall j :: 0 <= j < i ==> !Near(minValue, maxValue, handleValues[j], mouseY, height)
        invariant activeHandleIndex == old(activeHandleIndex)
      {
        var handlePosition := GetHandlePosition(values[i], height);
        if handlePosition.Some? && Abs(mouseY - handlePosition.value) < 10.0 {
          activeHandleIndex := i;
          return true;
        }
        i := i + 1;
      }
      return false;
    }

    /** `UpdateHandleValueFromMouse`: the active handle takes the value under the mouse. */
    method UpdateHandleValueFromMouse(mouseY: real, height: real)
      requires Valid() && activeHandleIndex != IndexNone && height > 0.0
      modifies this
      ensures Valid()
      ensures handleValues == old(handleValues)[old(activeHandleIndex) := ValueFromMouse(minValue, maxValue, mouseY, height)]
      ensures minValue == old(minValue) && maxValue == old(maxValue) && activeHandleIndex == old(activeHandleIndex)
    {
      var range := maxValue - minValue;
      var newValue := minValue + ((1.0 - mouseY / height) * range);
      newValue := Clamp(newValue, minValue, maxValue);
      var values := handleValues;
      values := values[activeHandleIndex := newValue];
      handleValues := values;
    }

    /** `OnMouseMove`: drags the active handle, if any; otherwise unhandled. */
    method OnMouseMove(mouseY: real, height: real) returns (handled: bool)
      requires Valid() && height > 0.0
      modifies this
      ensures Valid()
      ensures handled <==> old(activeHandleIndex) != IndexNone
      ensures handled ==>
        handleValues == old(handleValues)[old(activeHandleIndex) := ValueFromMouse(minValue, maxValue, mouseY, height)]
      ensures !handled ==> handleValues == old(handleValues)
      ensures minValue == old(minValue) && maxValue == old(maxValue) && activeHandleIndex == old(activeHandleIndex)
    {
      if activeHandleIndex != IndexNone {
        UpdateHandleValueFromMouse(mouseY, height);
        return true;
      }
      return false;
    }

    /** `OnMouseButtonUp`: releases the active handle, if any; otherwise unhandled. */
    method OnMouseButtonUp() returns (handled: bool)
      requires Valid()
      modifies this
      ensures Valid()
      ensures handled <==> old(activeHandleIndex) != IndexNone
      ensures activeHandleIndex == IndexNone
      ensures minValue == old(minValue) && maxValue == old(maxValue) && handleValues == old(handleValues)
    {
      if activeHandleIndex != IndexNone {
        activeHandleIndex := IndexNone;
        return true;
      }
      return false;
    }
  }
}
