/** Documents fetched from the database that a command changes field by
    field before committing them (database/MapData.py,
    database/WorldRecords.py). */
module Documents {
  import opened Common

  /** A MapData document as `find_one` returns it. */
  class MapDocument {
    var code: string
    var creator: string
    var mapName: string
    var postedBy: int
    var types: seq<string>
    var desc: string

    constructor (r: MapRecord)
      ensures Value() == r
    {
      code := r.code;
      creator := r.creator;
      mapName := r.mapName;
      postedBy := r.postedBy;
      types := r.types;
      desc := r.desc;
    }

    /** The fields as the document `commit` writes. */
    function Value(): MapRecord
      reads this
    {
      MapRecord(code, creator, mapName, postedBy, types, desc)
    }
  }

  /** A WorldRecords document as `find_one` returns it. */
  class RecordDocument {
    const id: int
    var code: string
    var name: string
    var postedBy: int
    var messageId: int
    var url: string
    var level: string
    var record: real
    var verified: bool
    var hiddenId: Option<int>

    constructor (r: PbRecord)
      ensures Value() == r
    {
      id := r.id;
      code := r.code;
      name := r.name;
      postedBy := r.postedBy;
      messageId := r.messageId;
      url := r.url;
      level := r.level;
      record := r.record;
      verified := r.verified;
      hiddenId := r.hiddenId;
    }

    /** The fields as the document `commit` writes. */
    function Value(): PbRecord
      reads this
    {
      PbRecord(id, code, name, postedBy, messageId, url, level, record, verified, hiddenId)
    }
  }
}
