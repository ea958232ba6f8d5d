/** The PAGE-XML records the scripts read, with the XML tree already parsed:
    a TextLine is what the XPath queries of the scripts select, in document order. */
module Page {
  import opened Wrappers

  /** One `TextLine` element.
      - `regionId`: the `id` of the parent `TextRegion`;
      - `plainText`: `None` when the line has no `TextEquiv/PlainText` element,
        `Some(None)` when that element has no text, `Some(Some(s))` otherwise;
      - `coords`: the `points` attribute of the `Coords` child, `None` without that child;
      - `custom`: the `custom` attribute. */
  datatype TextLine = TextLine(
    regionId: string,
    lineId: string,
    plainText: Option<Option<string>>,
    coords: Option<string>,
    custom: string)

  /** The exceptions the scripts do not catch (only lxml's XMLSyntaxError is caught). */
  datatype Fault =
    | NoCoords             // AttributeError: `find("ns:Coords")` returned None
    | NoPlainText          // AttributeError: `find(".../ns:PlainText")` returned None
    | NoUnicode            // AttributeError: `find("ns:Unicode")` returned None
    | BadNumber            // ValueError from int() or float()
    | MissingY             // IndexError: a coordinate token without a comma
    | UnknownLabel(tag: string)  // KeyError on a per-label dict
    | BadRing              // shapely refused to build the polygon
    | ZeroUnion            // ZeroDivisionError: union area 0
    | NoLines              // IndexError: `result[0]` of an empty XPath result
    | NoWidth              // TypeError: `int(None)`, the page has no imageWidth
    | UnboundRegion        // UnboundLocalError: `new_region` read before any assignment
    | NoPredecessor        // ValueError: `chr(-1)` for code point 0
    | NotXmlText           // ValueError: lxml refuses to store the string
    | MissingFile          // OSError: lxml cannot open the file
    | EmptyMean            // StatisticsError: `mean([])`
    | NoEventMatch         // AttributeError: `re.search` returned None
    | UndefinedName        // NameError: a handler names a variable that is not defined

  /** `name.endswith(".xml")` */
  predicate IsXmlName(name: string) {
    |name| >= 4 && name[|name| - 4..] == ".xml"
  }

  /** What `etree.parse` finds at a path: no readable file (OSError, not caught), a
      malformed document (XMLSyntaxError, caught), or the parsed content. */
  datatype Document<T> = Unreadable | Malformed | Parsed(content: T)
}
