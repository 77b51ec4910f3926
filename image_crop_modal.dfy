/** The state of the crop dialog (`ImageCropModal`): the decoded image, the
    crop being edited, the last completed crop, whether the image has been
    laid out, the image element (`imgRef`) and the callbacks it has invoked. */
module ImageCropModal {
  import opened Base
  import opened CropGeometry

  /** The `aspectRatio` prop's default. */
  const DefaultAspect: real := 16.0 / 9.0

  /** A callback the dialog invoked on its parent. */
  datatype Notice = CropDone(file: Rendered) | Closed

  class CropModal {
    const aspect: real
    const file: SourceFile
    var imageSrc: string
    var crop: Option<Crop>
    var completed: Option<Crop>
    var imageLoaded: bool
    /** `imgRef.current`: the image element, as the load handler records it;
        cleared when the element unmounts. */
    var image: Option<ImageBox>
    var notices: seq<Notice>

    /** A laid-out image has positive natural and displayed sizes. */
    ghost predicate Valid()
      reads this
    {
      && aspect > 0.0
      && (image.Some? ==>
            && image.value.naturalWidth > 0.0 && image.value.naturalHeight > 0.0
            && image.value.shownWidth > 0.0 && image.value.shownHeight > 0.0)
    }

    /** The dialog for one chosen file; the ratio defaults to 16:9. */
    constructor (aspectRatio: Option<real>, file: SourceFile)
      requires aspectRatio.Some? ==> aspectRatio.value > 0.0
      ensures Valid()
      ensures aspect == aspectRatio.GetOr(DefaultAspect) && this.file == file
      ensures imageSrc == "" && crop.None? && completed.None? && !imageLoaded && image.None? && notices == []
    {
      aspect := aspectRatio.GetOr(DefaultAspect);
      this.file := file;
      imageSrc := "";
      crop := None;
      completed := None;
      imageLoaded := false;
      image := None;
      notices := [];
    }

    /** The file has been read as a data URL: it becomes the source, not yet
        laid out. */
    method SourceRead(dataUrl: string)
      requires Valid()
      modifies this
      ensures Valid()
      ensures imageSrc == dataUrl && !imageLoaded
      ensures crop == old(crop) && completed == old(completed) && image == old(image) && notices == old(notices)
    {
      imageSrc := dataUrl;
      imageLoaded := false;
    }

    /** `onImageLoad`: the element is remembered at the size the browser
        gave it; with a container, the image is fitted into it and the
        initial crop becomes both the edited and the completed crop. */
    method OnImageLoad(naturalWidth: real, naturalHeight: real, renderedWidth: real, renderedHeight: real,
                       container: Option<(real, real)>)
      requires Valid()
      requires naturalWidth > 0.0 && naturalHeight > 0.0 && renderedWidth > 0.0 && renderedHeight > 0.0
      requires container.Some? ==> container.value.0 > Padding && container.value.1 > Padding
      modifies this
      ensures Valid()
      ensures container.None? ==>
                && image == Some(ImageBox(naturalWidth, naturalHeight, renderedWidth, renderedHeight))
                && crop == old(crop) && completed == old(completed) && imageLoaded == old(imageLoaded)
      ensures container.Some? ==>
                var fit := FitImage(naturalWidth, naturalHeight, container.value.0, container.value.1);
                && image == Some(ImageBox(naturalWidth, naturalHeight, fit.width, fit.height))
                && crop == Some(InitialCrop(fit.width, fit.height, aspect))
                && completed == crop && imageLoaded
      ensures imageSrc == old(imageSrc) && notices == old(notices)
    {
      image := Some(ImageBox(naturalWidth, naturalHeight, renderedWidth, renderedHeight));
      if container.None? {
        return;
      }
      var size := FitImage(naturalWidth, naturalHeight, container.value.0, container.value.1);
      image := Some(ImageBox(naturalWidth, naturalHeight, size.width, size.height));
      var initial := InitialCrop(size.width, size.height, aspect);
      crop := Some(initial);
      completed := Some(initial);
      imageLoaded := true;
    }

    /** `handleCropChange`: ignored while no element is recorded; otherwise the
        proposal, bounded by the element's displayed size, becomes the
        edited crop. The completed crop is not touched. */
    method HandleCropChange(proposal: Crop)
      requires Valid()
      modifies this
      ensures Valid()
      ensures old(image).None? ==> crop == old(crop)
      ensures old(image).Some? ==>
                && image.Some? && crop.Some?
                && Adjusted(proposal, image.value.shownWidth, image.value.shownHeight, aspect, crop.value)
      ensures imageSrc == old(imageSrc) && completed == old(completed) && imageLoaded == old(imageLoaded)
      ensures image == old(image) && notices == old(notices)
    {
      if image.None? {
        return;
      }
      var bounded := BoundCrop(proposal, image.value.shownWidth, image.value.shownHeight, aspect);
      crop := Some(bounded);
    }

    /** `onComplete` of the crop widget: a crop with non-zero width and
        height becomes the completed crop. */
    method OnWidgetComplete(c: Crop)
      requires Valid()
      modifies this
      ensures Valid()
      ensures completed == if c.width != 0.0 && c.height != 0.0 then Some(c) else old(completed)
      ensures imageSrc == old(imageSrc) && crop == old(crop) && imageLoaded == old(imageLoaded)
      ensures image == old(image) && notices == old(notices)
    {
      if c.width != 0.0 && c.height != 0.0 {
        completed := Some(c);
      }
    }

    /** `handleClose`: the source, both crops and the loaded flag are
        cleared and the parent is told. With no source the dialog renders
        nothing, so the image element unmounts and its reference is
        cleared. */
    method HandleClose()
      requires Valid()
      modifies this
      ensures Valid()
      ensures imageSrc == "" && crop.None? && completed.None? && !imageLoaded
      ensures image.None? && notices == old(notices) + [Closed]
    {
      imageSrc := "";
      image := None;
      crop := None;
      completed := None;
      imageLoaded := false;
      notices := notices + [Closed];
    }

    /** `handleCropComplete`: without an element or a completed crop nothing
        happens (the dialog stays open). Otherwise the completed crop is
        rendered; the parent receives the file only when one was produced,
        and the dialog then closes in every case. */
    method HandleCropComplete(devicePixelRatio: Option<real>, hasContext: bool, encoded: bool, now: int)
      returns (produced: Option<Rendered>)
      requires Valid()
      modifies this
      ensures Valid()
      ensures old(image).None? || old(completed).None? ==>
                && produced.None?
                && imageSrc == old(imageSrc) && crop == old(crop) && completed == old(completed)
                && imageLoaded == old(imageLoaded) && image == old(image) && notices == old(notices)
      ensures old(image).Some? && old(completed).Some? ==>
                && RenderedAs(old(image), old(completed), file, devicePixelRatio, hasContext, encoded, now, produced)
                && imageSrc == "" && crop.None? && completed.None? && !imageLoaded && image.None?
                && notices == old(notices) + (if produced.Some? then [CropDone(produced.value)] else []) + [Closed]
    {
      if image.None? || completed.None? {
        return None;
      }
      produced := Render(image, completed, file, devicePixelRatio, hasContext, encoded, now);
      if produced.Some? {
        notices := notices + [CropDone(produced.value)];
      }
      HandleClose();
    }
  }
}
