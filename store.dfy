/** The process-wide application state shared by the hand tracker (writer)
    and the particle field (reader), as kept by src/app/store.ts. */
module Store {

  datatype Option<+T> = None | Some(value: T)

  /** A point or a direction in three dimensions. */
  datatype Vec3 = Vec3(x: real, y: real, z: real)

  /** A pair of rotation angles, written `[y, x]` in the store. */
  datatype Rotation = Rotation(y: real, x: real)

  /** The seven shapes the particle field can morph into. */
  datatype ShapeType = Sphere | Cube | Heart | Flower | Saturn | Firework | Random

  /** The name under which each shape travels as a gesture label or button value. */
  function ShapeName(s: ShapeType): string
  {
    match s
    case Sphere => "sphere"
    case Cube => "cube"
    case Heart => "heart"
    case Flower => "flower"
    case Saturn => "saturn"
    case Firework => "firework"
    case Random => "random"
  }

  /** The shape a name stands for, if it is one of the seven names. */
  function ParseShape(name: string): (r: Option<ShapeType>)
    ensures r.Some? ==> ShapeName(r.value) == name
  {
    if name == "sphere" then Some(Sphere)
    else if name == "cube" then Some(Cube)
    else if name == "heart" then Some(Heart)
    else if name == "flower" then Some(Flower)
    else if name == "saturn" then Some(Saturn)
    else if name == "firework" then Some(Firework)
    else if name == "random" then Some(Random)
    else None
  }

  /** Every shape name parses back to its shape, so the seven names are distinct. */
  lemma ShapeNameRoundTrip(s: ShapeType)
    ensures ParseShape(ShapeName(s)) == Some(s)
  {
  }

  /** The shared record: five fields, each overwritten by its own setter. */
  class AppState {
    var handPosition: Vec3      // normalised to [-1, 1]
    var isHandDetected: bool
    var gesture: Option<string> // `null` until the first commit
    var rotation: Rotation
    var targetShape: ShapeType

    /** The initial values of the store. */
    constructor ()
      ensures handPosition == Vec3(0.0, 0.0, 0.0)
      ensures !isHandDetected
      ensures gesture == None
      ensures targetShape == Sphere
      ensures rotation == Rotation(0.0, 0.0)
    {
      handPosition := Vec3(0.0, 0.0, 0.0);
      isHandDetected := false;
      gesture := None;
      targetShape := Sphere;
      rotation := Rotation(0.0, 0.0);
    }

    method SetHandPosition(pos: Vec3)
      modifies this
      ensures handPosition == pos
      ensures isHandDetected == old(isHandDetected) && gesture == old(gesture)
      ensures rotation == old(rotation) && targetShape == old(targetShape)
    {
      handPosition := pos;
    }

    method SetHandDetected(detected: bool)
      modifies this
      ensures isHandDetected == detected
      ensures handPosition == old(handPosition) && gesture == old(gesture)
      ensures rotation == old(rotation) && targetShape == old(targetShape)
    {
      isHandDetected := detected;
    }

    method SetGesture(g: Option<string>)
      modifies this
      ensures gesture == g
      ensures handPosition == old(handPosition) && isHandDetected == old(isHandDetected)
      ensures rotation == old(rotation) && targetShape == old(targetShape)
    {
      gesture := g;
    }

    method SetRotation(rot: Rotation)
      modifies this
      ensures rotation == rot
      ensures handPosition == old(handPosition) && isHandDetected == old(isHandDetected)
      ensures gesture == old(gesture) && targetShape == old(targetShape)
    {
      rotation := rot;
    }

    method SetTargetShape(shape: ShapeType)
      modifies this
      ensures targetShape == shape
      ensures handPosition == old(handPosition) && isHandDetected == old(isHandDetected)
      ensures gesture == old(gesture) && rotation == old(rotation)
    {
      targetShape := shape;
    }
  }

  /** Writing the same value twice leaves the store as writing it once does:
      what the setters promise is enough to show it for each of them. */
  method SettersAreIdempotent(s: AppState, pos: Vec3, d: bool, g: Option<string>,
                              rot: Rotation, shape: ShapeType)
    modifies s
    ensures s.handPosition == pos && s.isHandDetected == d && s.gesture == g
    ensures s.rotation == rot && s.targetShape == shape
  {
    s.SetHandPosition(pos);
    s.SetHandDetected(d);
    s.SetGesture(g);
    s.SetRotation(rot);
    s.SetTargetShape(shape);
    var once := (s.handPosition, s.isHandDetected, s.gesture, s.rotation, s.targetShape);
    s.SetHandPosition(pos);
    s.SetHandDetected(d);
    s.SetGesture(g);
    s.SetRotation(rot);
    s.SetTargetShape(shape);
    assert (s.handPosition, s.isHandDetected, s.gesture, s.rotation, s.targetShape) == once;
  }
}
