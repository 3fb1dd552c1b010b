/**
 * The name DownloadTask.getLayerName gives the new GPX layer: the .gpx file name
 * taken from the URL, the name in the track metadata, or the default label, in an
 * order set by the gpx.prefermetadataname preference.
 */
module LayerNaming {
  import opened GpsCommon
  import opened SourceResolver

  /**
   * The characters Utils.strip removes: Java whitespace, Unicode space characters,
   * the zero-width space and the byte-order mark.
   */
  predicate IsStripChar(c: char)
  {
    || ('\U{0009}' <= c <= '\U{000D}')
    || ('\U{001C}' <= c <= '\U{0020}')
    || c == '\U{00A0}' || c == '\U{1680}'
    || ('\U{2000}' <= c <= '\U{200B}')
    || c == '\U{2028}' || c == '\U{2029}' || c == '\U{202F}' || c == '\U{205F}'
    || c == '\U{3000}' || c == '\U{FEFF}'
  }

  /** Utils.isStripEmpty: null, or nothing but strippable characters. */
  predicate IsStripEmpty(s: Option<string>)
  {
    s.None? || forall k :: 0 <= k < |s.value| ==> IsStripChar(s.value[k])
  }

  /**
   * Utils.firstNotEmptyString(defaultString, candidates...): the first candidate
   * that is not strip-empty, or the default when every candidate is.
   */
  function FirstNotEmptyString(defaultString: string, candidates: seq<Option<string>>): (r: string)
    ensures (forall i :: 0 <= i < |candidates| ==> IsStripEmpty(candidates[i])) ==> r == defaultString
    ensures forall i :: (0 <= i < |candidates| && !IsStripEmpty(candidates[i])
                         && forall j :: 0 <= j < i ==> IsStripEmpty(candidates[j])) ==> r == candidates[i].value
    ensures r == defaultString || exists i :: 0 <= i < |candidates| && candidates[i] == Some(r)
  {
    if |candidates| == 0 then defaultString
    else if !IsStripEmpty(candidates[0]) then candidates[0].value
    else
      var tail := candidates[1..];
      var r := FirstNotEmptyString(defaultString, tail);
      assert forall k :: 0 <= k < |tail| ==> tail[k] == candidates[k + 1];
      r
  }

  /** tr("Downloaded GPX Data"), untranslated. */
  const DefaultName: string := "Downloaded GPX Data"

  /** Group 1 of EXTERNAL_GPX_FILE, when there is a URL and that pattern matches it. */
  function GpxFileName(p: UrlPatterns, url: Option<string>): (r: Option<string>)
    ensures r.Some? <==> url.Some? && p.matches(ExternalGpxFile, url.value)
    ensures r.Some? ==> r.value == p.group(ExternalGpxFile, url.value, 1)
  {
    if url.Some? && p.matches(ExternalGpxFile, url.value) then Some(p.group(ExternalGpxFile, url.value, 1))
    else None
  }

  /** The META_NAME entry of the data, when there is data. */
  function MetadataName(rawData: Option<GpxData>): (r: Option<string>)
    ensures rawData.None? ==> r.None?
    ensures r.Some? <==> rawData.Some? && rawData.value.metadataName.Some?
    ensures r.Some? ==> rawData.value.metadataName == r
  {
    if rawData.Some? then rawData.value.metadataName else None
  }

  /**
   * getLayerName. Without the preference the file name comes first, then the
   * metadata name; with it the two swap places; the default comes last.
   */
  function LayerName(preferMetadataName: bool, p: UrlPatterns, url: Option<string>, rawData: Option<GpxData>): (name: string)
    ensures !preferMetadataName ==>
              var file, meta := GpxFileName(p, url), MetadataName(rawData);
              name == if !IsStripEmpty(file) then file.value
                      else if !IsStripEmpty(meta) then meta.value
                      else DefaultName
    ensures preferMetadataName ==>
              var file, meta := GpxFileName(p, url), MetadataName(rawData);
              name == if !IsStripEmpty(meta) then meta.value
                      else if !IsStripEmpty(file) then file.value
                      else DefaultName
  {
    var file := GpxFileName(p, url);
    var meta := MetadataName(rawData);
    var candidates := if preferMetadataName then [meta, file] else [file, meta];
    var name := FirstNotEmptyString(DefaultName, candidates);
    assert !IsStripEmpty(candidates[0]) ==> name == candidates[0].value;
    assert IsStripEmpty(candidates[0]) && !IsStripEmpty(candidates[1]) ==> name == candidates[1].value;
    name
  }

  /** The default label is used only when neither the file name nor the metadata name has text. */
  lemma DefaultOnlyWhenNoName(preferMetadataName: bool, p: UrlPatterns, url: Option<string>, rawData: Option<GpxData>)
    ensures IsStripEmpty(GpxFileName(p, url)) && IsStripEmpty(MetadataName(rawData)) ==>
              LayerName(preferMetadataName, p, url, rawData) == DefaultName
    ensures !IsStripEmpty(GpxFileName(p, url)) || !IsStripEmpty(MetadataName(rawData)) ==>
              var name := LayerName(preferMetadataName, p, url, rawData);
              !IsStripEmpty(Some(name)) && (GpxFileName(p, url) == Some(name) || MetadataName(rawData) == Some(name))
  {
  }

  /**
   * With both names present the preference decides between them; with at most one
   * present it makes no difference.
   */
  lemma PreferenceSwapsNames(p: UrlPatterns, url: Option<string>, rawData: Option<GpxData>)
    ensures !IsStripEmpty(GpxFileName(p, url)) && !IsStripEmpty(MetadataName(rawData)) ==>
              LayerName(false, p, url, rawData) == GpxFileName(p, url).value &&
              LayerName(true, p, url, rawData) == MetadataName(rawData).value
    ensures IsStripEmpty(GpxFileName(p, url)) || IsStripEmpty(MetadataName(rawData)) ==>
              LayerName(false, p, url, rawData) == LayerName(true, p, url, rawData)
  {
  }

  /**
   * A .gpx file "track" with metadata name "MyRide": the file name wins without
   * the preference, the metadata name with it.
   */
  lemma NamingExample(p: UrlPatterns, url: string)
    requires p.matches(ExternalGpxFile, url) && p.group(ExternalGpxFile, url, 1) == "track"
    ensures LayerName(false, p, Some(url), Some(GpxData(Some("MyRide"), true))) == "track"
    ensures LayerName(true, p, Some(url), Some(GpxData(Some("MyRide"), true))) == "MyRide"
    ensures LayerName(false, p, None, Some(GpxData(Some(" "), true))) == DefaultName
  {
    assert "track"[0] == 't' && !IsStripChar('t');
    assert "MyRide"[0] == 'M' && !IsStripChar('M');
  }
}
