/** The rotating list widget every picker column is, seen only through the
    calls the pickers make on it: replace the displayed strings, move the
    selection, read the selection. The widget's own source is not part of
    this model, so neither operation clamps the index it is given. */
module Wheel {

  datatype Column = Column(data: seq<string>, selected: int)

  /** A freshly constructed widget: nothing displayed, first position. */
  const Fresh: Column := Column([], 0)

  /** `setData`: the displayed strings change, the selection index does not. */
  function SetData(c: Column, data: seq<string>): Column {
    c.(data := data)
  }

  /** `setSelectedItemPosition`: records the requested index as given. */
  function SetSelectedItemPosition(c: Column, position: int): Column {
    c.(selected := position)
  }
}
