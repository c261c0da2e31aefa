/** The invoice-template editor: a list of rectangular zones drawn with the
    mouse on a page preview, each later given a field label; zones without a
    label are dropped when the template is saved. */
module TemplateEditor {
  import opened Seqs

  /** A mouse position on the overlay, in whole pixels. */
  datatype Point = Point(x: int, y: int)

  /** A zone: its top-left corner, its size, the field it captures (the
      source's `label`, '' until the user picks one) and the page it is on. */
  datatype Zone = Zone(x: int, y: int, w: int, h: int, field: string, page: int)

  /** The template being edited, if any: its id, name and stored zone JSON. */
  datatype Template = Template(id: int, name: string, zones: Option<string>)

  /** A field a zone can capture and its display name (the source's `label`). */
  datatype FieldType = FieldType(value: string, caption: string)

  /** The fields a zone can capture. */
  const FieldTypes: seq<FieldType> := [
    FieldType("invoiceNumber", "Invoice Number"),
    FieldType("invoiceDate", "Date"),
    FieldType("totalAmount", "Total Amount"),
    FieldType("supplierName", "Supplier Name")
  ]

  /** What saving sends: the zones of an existing template, or a new template
      for the supplier followed by its zones. */
  datatype SaveRequest =
    | SaveZones(templateId: int, zones: seq<Zone>)
    | CreateThenSaveZones(supplierId: int, name: string, zones: seq<Zone>)

  /** Which call of a save request failed. */
  datatype SaveFailure = CreateFailed | SaveZonesFailed

  function Abs(n: int): (r: nat)
    ensures r == n || r == -n
  {
    if n < 0 then -n else n
  }

  function Min(a: int, b: int): (r: int)
    ensures r <= a && r <= b && (r == a || r == b)
  {
    if a <= b then a else b
  }

  /** The zone a drag from `start` to `end` adds: none unless it is more than 5
      pixels wide and high; otherwise the rectangle spanned by the two points,
      whatever the drag direction, unlabelled, on `page`. */
  function DraggedZone(start: Point, end: Point, page: int): (r: Option<Zone>)
    ensures r.Some? <==> Abs(end.x - start.x) > 5 && Abs(end.y - start.y) > 5
    ensures r.Some? ==>
              var z := r.value;
              && z.w > 5 && z.h > 5 && z.field == "" && z.page == page
              && z.x <= start.x && z.x <= end.x && (z.x == start.x || z.x == end.x)
              && z.y <= start.y && z.y <= end.y && (z.y == start.y || z.y == end.y)
              && (z.x + z.w == start.x || z.x + z.w == end.x)
              && (z.y + z.h == start.y || z.y + z.h == end.y)
  {
    var w := end.x - start.x;
    var h := end.y - start.y;
    if Abs(w) > 5 && Abs(h) > 5 then
      Some(Zone(Min(start.x, end.x), Min(start.y, end.y), Abs(w), Abs(h), "", page))
    else
      None
  }

  /** Dragging the opposite way gives the same zone. */
  lemma DragDirectionIsIrrelevant(start: Point, end: Point, page: int)
    ensures DraggedZone(start, end, page) == DraggedZone(end, start, page)
  {
  }

  /** Array.prototype.splice(index, 1): a negative index counts from the end,
      and an index past the end removes nothing. */
  function SpliceOne<T>(s: seq<T>, index: int): (r: seq<T>)
    ensures 0 <= index < |s| ==>
              |r| == |s| - 1
              && (forall i :: 0 <= i < index ==> r[i] == s[i])
              && (forall i :: index <= i < |r| ==> r[i] == s[i + 1])
    ensures index >= |s| ==> r == s
    ensures -|s| <= index < 0 ==> r == s[..|s| + index] + s[|s| + index + 1..]
    ensures index < -|s| && s != [] ==> r == s[1..]
  {
    var start := if index < 0 then (if |s| + index > 0 then |s| + index else 0)
                 else (if index < |s| then index else |s|);
    var stop := if start + 1 < |s| then start + 1 else |s|;
    s[..start] + s[stop..]
  }

  /** Removing the zone at a valid index takes out that zone and no other. */
  lemma SpliceOneRemovesOne<T>(s: seq<T>, index: int)
    requires 0 <= index < |s|
    ensures multiset(SpliceOne(s, index)) + multiset{s[index]} == multiset(s)
  {
    assert s == s[..index] + [s[index]] + s[index + 1..];
  }

  function ValueIs(value: string): FieldType -> bool {
    (f: FieldType) => f.value == value
  }

  /** getFieldLabel: the label of the field type with that value, or the value
      itself when there is none. */
  function GetFieldLabel(value: string): (r: string)
    ensures (exists i :: 0 <= i < |FieldTypes| && FieldTypes[i].value == value) ==>
              exists i :: 0 <= i < |FieldTypes| && FieldTypes[i].value == value && r == FieldTypes[i].caption
    ensures (forall i :: 0 <= i < |FieldTypes| ==> FieldTypes[i].value != value) ==> r == value
  {
    var k := FindIndex(FieldTypes, ValueIs(value));
    if k >= 0 && FieldTypes[k].caption != "" then FieldTypes[k].caption else value
  }

  /** A known field shows its display name, an unknown one itself. */
  lemma FieldLabelExamples()
    ensures GetFieldLabel("invoiceDate") == "Date"
    ensures GetFieldLabel("iban") == "iban"
  {
    assert FieldTypes[1].value == "invoiceDate";
    assert "invoiceDate" != "invoiceNumber";
    assert forall i :: 0 <= i < |FieldTypes| ==> FieldTypes[i].value != "iban";
  }

  predicate HasLabel(z: Zone) {
    z.field != ""
  }

  /** The zones of a stored template: none when it has no zone JSON or the JSON
      does not parse (`parse` stands for JSON.parse, None for a thrown error). */
  function InitialZones(template: Option<Template>, parse: string -> Option<seq<Zone>>): (r: seq<Zone>)
    ensures template.None? || template.value.zones.None? || template.value.zones.value == "" ==> r == []
    ensures template.Some? && template.value.zones.Some? && template.value.zones.value != "" ==>
              r == parse(template.value.zones.value).GetOr([])
  {
    match template
    case Some(Template(_, _, Some(json))) =>
      if json == "" then []
      else
        (match parse(json)
         case Some(zones) => zones
         case None => [])
    case _ => []
  }

  /** The editor's state. */
  class TemplateEditorComponent {
    var supplierId: int
    var template: Option<Template>
    var isEditMode: bool
    var name: string
    var hasFile: bool
    var isLoading: bool
    var pageNum: int
    var zones: seq<Zone>
    var isDrawing: bool
    var startPoint: Point

    /** Edit mode is exactly having a template. */
    predicate Valid()
      reads this
    {
      isEditMode <==> template.Some?
    }

    /** The form needs a name, and a file unless an existing template is edited. */
    predicate FormValid()
      reads this
    {
      name != "" && (isEditMode || hasFile)
    }

    /** An editor for `template`, or for a new template of the supplier when
        there is none; the stored zones are loaded when present. */
    constructor (supplierId: int, template: Option<Template>, parse: string -> Option<seq<Zone>>)
      ensures this.supplierId == supplierId && this.template == template
      ensures Valid() && (isEditMode <==> template.Some?)
      ensures name == if template.Some? then template.value.name else ""
      ensures !hasFile && !isLoading && pageNum == 1 && !isDrawing && startPoint == Point(0, 0)
      ensures zones == InitialZones(template, parse)
    {
      this.supplierId := supplierId;
      this.template := template;
      isEditMode := template.Some?;
      name := if template.Some? then template.value.name else "";
      hasFile := false;
      isLoading := false;
      pageNum := 1;
      isDrawing := false;
      startPoint := Point(0, 0);
      zones := [];
      if template.Some? && template.value.zones.Some? && template.value.zones.value != "" {
        var parsed := parse(template.value.zones.value);
        if parsed.Some? {
          zones := parsed.value;
        } else {
          zones := [];
        }
      }
    }

    /** onMouseDown: a drag starts at `p`. */
    method OnMouseDown(p: Point)
      modifies this`isDrawing, this`startPoint
      ensures isDrawing && startPoint == p
    {
      isDrawing := true;
      startPoint := p;
    }

    /** onMouseUp: outside a drag nothing happens; otherwise the drag ends and
        the zone it spans, if large enough, is appended. */
    method OnMouseUp(end: Point)
      modifies this`isDrawing, this`zones
      ensures !old(isDrawing) ==> zones == old(zones) && isDrawing == old(isDrawing)
      ensures old(isDrawing) ==>
                !isDrawing
                && zones == old(zones) + match DraggedZone(old(startPoint), end, old(pageNum))
                                         case Some(z) => [z]
                                         case None => []
    {
      if !isDrawing {
        return;
      }
      isDrawing := false;
      var w := end.x - startPoint.x;
      var h := end.y - startPoint.y;
      if Abs(w) > 5 && Abs(h) > 5 {
        zones := zones + [Zone(Min(startPoint.x, end.x), Min(startPoint.y, end.y), Abs(w), Abs(h), "", pageNum)];
      }
    }

    /** removeZone: `zones.splice(index, 1)`. */
    method RemoveZone(index: int)
      modifies this`zones
      ensures zones == SpliceOne(old(zones), index)
    {
      var start := if index < 0 then (if |zones| + index > 0 then |zones| + index else 0)
                   else (if index < |zones| then index else |zones|);
      var stop := if start + 1 < |zones| then start + 1 else |zones|;
      zones := zones[..start] + zones[stop..];
    }

    /** save: an invalid form does nothing; otherwise the editor is busy and the
        labelled zones, in order, are sent for the template being edited or
        for the new one. */
    method Save() returns (request: Option<SaveRequest>)
      requires Valid()
      modifies this`isLoading
      ensures request.Some? <==> FormValid()
      ensures !FormValid() ==> isLoading == old(isLoading)
      ensures request.Some? ==>
                && isLoading
                && (forall z :: z in request.value.zones <==> z in zones && z.field != "")
                && IsSubsequence(request.value.zones, zones)
                && (isEditMode <==> request.value.SaveZones?)
                && (request.value.SaveZones? ==> template.Some? && request.value.templateId == template.value.id)
                && (request.value.CreateThenSaveZones? ==>
                      request.value.supplierId == supplierId && request.value.name == name)
    {
      if !FormValid() {
        return None;
      }
      isLoading := true;
      var validZones := Filter(zones, HasLabel);
      if isEditMode {
        request := Some(SaveZones(template.value.id, validZones));
      } else {
        request := Some(CreateThenSaveZones(supplierId, name, validZones));
      }
    }

    /** A save request failed. Once a new template has been created, a failed
        zone save still closes the dialog; any other failure resets the busy
        flag and keeps the dialog open. */
    method OnSaveError(request: SaveRequest, failure: SaveFailure) returns (closes: bool)
      requires request.SaveZones? ==> failure == SaveZonesFailed
      modifies this`isLoading
      ensures closes <==> request.CreateThenSaveZones? && failure == SaveZonesFailed
      ensures !closes ==> !isLoading
      ensures closes ==> isLoading == old(isLoading)
    {
      if request.CreateThenSaveZones? && failure == SaveZonesFailed {
        return true;
      }
      isLoading := false;
      closes := false;
    }
  }
}
