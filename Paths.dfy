/** app/media/paths.py: where the media of a post are written. A path is the sequence of
    its components as `pathlib` keeps them; an absolute path starts with the root "/". */
module Paths {
  import opened Text
  import opened Seqs

  type Path = seq<string>

  /** A component `pathlib` keeps: empty pieces and "." are dropped. */
  predicate IsPart(piece: string) {
    piece != [] && piece != "."
  }

  /** The components of a relative path string. */
  function Parts(s: string): seq<string> {
    Filter(Split(s, '/'), IsPart)
  }

  /** `p / part`: an absolute `part` replaces `p`. */
  function Join(p: Path, part: string): Path {
    if part != [] && part[0] == '/' then ["/"] + Parts(part) else p + Parts(part)
  }

  /** A single file or directory name. */
  predicate PlainName(name: string) {
    IsPart(name) && '/' !in name
  }

  /** Joining a plain name adds exactly that component. */
  lemma JoinName(p: Path, name: string)
    requires PlainName(name)
    ensures Join(p, name) == p + [name]
  {
    assert FindChar(name, '/') == -1;
    assert Split(name, '/') == [name];
    assert Filter([name], IsPart) == Filter([name][..0], IsPart) + [name];
  }

  /** `roundup_dir(base_dir, post_id)`. */
  function RoundupDir(base: Path, postId: string): Path {
    Join(Join(base, "roundup"), postId)
  }

  /** `roundup_audio_path`. */
  function RoundupAudioPath(base: Path, postId: string): Path {
    Join(RoundupDir(base, postId), "audio.mp3")
  }

  /** `roundup_video_path`. */
  function RoundupVideoPath(base: Path, postId: string): Path {
    Join(RoundupDir(base, postId), "video.mp4")
  }

  /** `roundup_image_path`. */
  function RoundupImagePath(base: Path, postId: string): Path {
    Join(RoundupDir(base, postId), "image.png")
  }

  /** `short_video_dir(base_dir, post_id)`. */
  function ShortVideoDir(base: Path, postId: string): Path {
    Join(Join(base, "short"), postId)
  }

  /** `short_video_path`. */
  function ShortVideoPath(base: Path, postId: string): Path {
    Join(ShortVideoDir(base, postId), "video.mp4")
  }

  /** The fixed names are plain names. */
  lemma FixedNames()
    ensures PlainName("roundup") && PlainName("short")
    ensures PlainName("audio.mp3") && PlainName("video.mp4") && PlainName("image.png")
  {
  }

  /** Two different names joined to one directory give two different paths. */
  lemma DifferentNames(dir: Path, a: string, b: string)
    requires a != b
    ensures dir + [a] != dir + [b]
  {
    assert (dir + [a])[|dir|] == a;
  }

  /** The audio, video and image of a roundup sit directly in its directory, under three
      different names, so none overwrites another. */
  lemma RoundupArtefacts(base: Path, postId: string)
    ensures RoundupAudioPath(base, postId) == RoundupDir(base, postId) + ["audio.mp3"]
    ensures RoundupVideoPath(base, postId) == RoundupDir(base, postId) + ["video.mp4"]
    ensures RoundupImagePath(base, postId) == RoundupDir(base, postId) + ["image.png"]
    ensures RoundupAudioPath(base, postId) != RoundupVideoPath(base, postId)
    ensures RoundupAudioPath(base, postId) != RoundupImagePath(base, postId)
    ensures RoundupVideoPath(base, postId) != RoundupImagePath(base, postId)
  {
    var dir := RoundupDir(base, postId);
    FixedNames();
    JoinName(dir, "audio.mp3");
    JoinName(dir, "video.mp4");
    JoinName(dir, "image.png");
    DifferentNames(dir, "audio.mp3", "video.mp4");
    DifferentNames(dir, "audio.mp3", "image.png");
    DifferentNames(dir, "video.mp4", "image.png");
  }

  /** For a relative post id, the short video and the roundup video of the same post are
      different paths: one lies under "short", the other under "roundup". `..` is kept as a
      component, so an id starting with `..` can still make the two name the same file. */
  lemma ShortVideoNotRoundupVideo(base: Path, postId: string)
    requires postId == [] || postId[0] != '/'
    ensures ShortVideoPath(base, postId) != RoundupVideoPath(base, postId)
  {
    FixedNames();
    JoinName(base, "short");
    JoinName(base, "roundup");
    var id := Parts(postId);
    JoinName(base + ["short"] + id, "video.mp4");
    JoinName(base + ["roundup"] + id, "video.mp4");
    assert (base + ["short"] + id + ["video.mp4"])[|base|] == "short";
    assert (base + ["roundup"] + id + ["video.mp4"])[|base|] == "roundup";
  }

  /** An absolute post id replaces both directories, and the two videos then collide:
      the requirement above is needed. */
  lemma AbsolutePostIdCollides(base: Path)
    ensures ShortVideoPath(base, "/x") == RoundupVideoPath(base, "/x")
  {
  }
}
